/**
 * The collection object.  Every public method is proved to perform exactly the steps of its program, in
 * that order: `View()` ends where the program ends, and `trace` records the disk after every step.
 */
module Collection {
  import opened Types
  import opened RecordStore
  import opened Log
  import opened Recovery
  import opened CrashSafety
  import opened CrashTheorem
  import opened Calls
  import RF = RecordFile
  import WF = WalFile

  datatype ReadError = ReadFailed

  /** What a crash at some moment would leave, with the operations logged by then. */
  datatype Point = Point(disk: Disk, hist: seq<Op>)

  function PointOf(core: Core): Point { Point(core.disk, core.hist) }

  /** The disk after each step of a program. */
  ghost function Points(cfg: Config, core: Core, steps: seq<Step>): (r: seq<Point>)
    ensures |r| == |steps|
    decreases |steps|
  {
    if steps == [] then []
    else [PointOf(Exec(cfg, core, steps[0]))] + Points(cfg, Exec(cfg, core, steps[0]), steps[1..])
  }

  lemma {:induction false} PointsAppend(cfg: Config, core: Core, a: seq<Step>, b: seq<Step>)
    ensures Run(cfg, core, a + b) == Run(cfg, Run(cfg, core, a), b)
    ensures Points(cfg, core, a + b) == Points(cfg, core, a) + Points(cfg, Run(cfg, core, a), b)
    decreases |a|
  {
    if a == [] {
      assert a + b == b;
    } else {
      assert (a + b)[1..] == a[1..] + b;
      PointsAppend(cfg, Exec(cfg, core, a[0]), a[1..], b);
    }
  }

  lemma OnePoint(cfg: Config, core: Core, step: Step)
    ensures Run(cfg, core, [step]) == Exec(cfg, core, step)
    ensures Points(cfg, core, [step]) == [PointOf(Exec(cfg, core, step))]
  {
    assert [step][1..] == [];
    assert Points(cfg, Exec(cfg, core, step), []) == [];
  }

  ghost function BatchWrites(cfg: Config, docs: seq<Document>): seq<Step> {
    Logs(Inserts(docs)) + ([Step.Reserve(TotalBytes(Encodings(cfg, docs)))] + Writes(docs))
  }

  lemma PointsAt(cfg: Config, core: Core, steps: seq<Step>, i: nat)
    requires i < |steps|
    ensures var c := Exec(cfg, core, steps[0]);
            Points(cfg, core, steps)[i] == if i == 0 then PointOf(c) else Points(cfg, c, steps[1..])[i - 1]
  {}

  /** A crash at any recorded point of a safe program is recovered from without loss. */
  lemma EveryPointRecovers(cfg: Config, core: Core, steps: seq<Step>, i: nat)
    requires CoreOk(cfg, core, steps) && i < |steps|
    ensures var p := Points(cfg, core, steps)[i];
            CurrentDocs(cfg, Reopen(cfg, p.disk, p.hist)) == Current(p.hist)
  {
    var p := PointIsOk(cfg, core, steps, i);
    ReopenHolds(cfg, p.disk, p.hist);
  }

  lemma {:induction false} PointIsOk(cfg: Config, core: Core, steps: seq<Step>, i: nat) returns (p: Point)
    requires CoreOk(cfg, core, steps) && i < |steps|
    ensures p == Points(cfg, core, steps)[i] && DiskOk(cfg, p.disk, p.hist)
    decreases |steps|
  {
    var c := FirstPointIsOk(cfg, core, steps);
    p := PointOf(c);
    PointsAt(cfg, core, steps, i);
    if i > 0 { p := PointIsOk(cfg, c, steps[1..], i - 1); }
  }

  lemma FirstPointIsOk(cfg: Config, core: Core, steps: seq<Step>) returns (c: Core)
    requires steps != [] && CoreOk(cfg, core, steps)
    ensures c == Exec(cfg, core, steps[0]) && CoreOk(cfg, c, steps[1..])
  {
    c := Exec(cfg, core, steps[0]);
    StepKeeps(cfg, core, steps);
  }

  /** `list` are the documents of some ids, in the order of the ids. */
  ghost predicate InOrder(order: seq<Id>, docs: Docs, list: seq<Document>)
    decreases |order|
  {
    if order == [] then list == []
    else list != [] && order[0] in docs && list[0] == docs[order[0]] && InOrder(order[1..], docs, list[1..])
  }

  lemma CheckpointSteps(done: seq<Step>)
    ensures done + [SaveIndex] + [SaveIds] + [LogMark] + [SaveSeq] + [Rotate] == done + CHECKPOINT
  {}

  lemma DeleteProgram(cfg: Config, list: seq<Id>, core: Core, due: bool)
    requires due ==> DeletesApplied(list, core.mem.index.Keys) != []
    ensures var keys := core.mem.index.Keys;
            var done := Logs(DeletesLogged(list, keys)) + Applies(DeletesApplied(list, keys));
            && done + CheckpointIf(due) == Program(cfg, Call.DeleteBatch(list), core, due)
            && (!due ==> done == Program(cfg, Call.DeleteBatch(list), core, due))
  {}

  lemma BatchProgram(cfg: Config, docs: seq<Document>, core: Core, due: bool)
    ensures BatchWrites(cfg, docs) + CheckpointIf(due) + IndexIds(docs)
      == Program(cfg, Call.InsertBatch(docs), core, due)
  {}

  // ----- a batch of records as steps

  function WithPointers(index: Index, docs: seq<Document>, ps: seq<Pointer>): Index
    requires |docs| == |ps|
    decreases |docs|
  {
    if docs == [] then index else WithPointers(index[docs[0].id := ps[0]], docs[1..], ps[1..])
  }

  function Holding(core: Core, s: Store, index: Index): Core {
    core.(disk := core.disk.(data := s.data), mem := core.mem.(cursor := s.cursor, index := index))
  }

  function StoreOf(core: Core): Store { Store(core.disk.data, core.mem.cursor) }

  lemma {:induction false} AppendEachLength(s: Store, batch: seq<seq<byte>>)
    ensures |AppendEach(s, batch).1| == |batch|
    decreases |batch|
  {
    if batch != [] { AppendEachLength(RecordStore.Append(s, batch[0]), batch[1..]); }
  }

  /** The `Write` steps of a batch leave what repeated `append` and the pointer loop leave. */
  lemma {:induction false} WritesRun(cfg: Config, core: Core, docs: seq<Document>)
    ensures var (s, ps) := AppendEach(StoreOf(core), Encodings(cfg, docs));
            |ps| == |docs| && Run(cfg, core, Writes(docs)) == Holding(core, s, WithPointers(core.mem.index, docs, ps))
    decreases |docs|
  {
    AppendEachLength(StoreOf(core), Encodings(cfg, docs));
    if docs != [] {
      assert Writes(docs)[1..] == Writes(docs[1..]);
      assert Encodings(cfg, docs)[1..] == Encodings(cfg, docs[1..]);
      var (s, ps) := AppendEach(StoreOf(PutDoc(cfg, core, docs[0])), Encodings(cfg, docs[1..]));
      assert ([AppendPointer(StoreOf(core), cfg.enc(docs[0]))] + ps)[1..] == ps;
      WritesRun(cfg, PutDoc(cfg, core, docs[0]), docs[1..]);
    }
  }

  lemma {:induction false} WritesPoints(cfg: Config, core: Core, docs: seq<Document>, i: nat)
    requires i < |docs|
    ensures var next := Encodings(cfg, docs)[..i + 1];
            Points(cfg, core, Writes(docs))[i]
              == Point(core.disk.(data := AppendEach(StoreOf(core), next).0.data), core.hist)
    decreases |docs|
  {
    var encs := Encodings(cfg, docs);
    var tail, c := encs[1..], PutDoc(cfg, core, docs[0]);
    assert Writes(docs)[1..] == Writes(docs[1..]);
    assert tail == Encodings(cfg, docs[1..]);
    var next := encs[..i + 1];
    assert next[1..] == tail[..i] && next[0] == encs[0];
    if i > 0 { WritesPoints(cfg, c, docs[1..], i - 1); }
  }

  /** Growth and writes of a batch, as one program: the final state and the disk after each step. */
  lemma BatchRun(cfg: Config, core: Core, docs: seq<Document>)
    ensures var encs := Encodings(cfg, docs);
            var start := RecordStore.Reserve(StoreOf(core), TotalBytes(encs));
            var steps := [Step.Reserve(TotalBytes(encs))] + Writes(docs);
            var (s, ps) := AppendEach(start, encs);
            && |ps| == |docs|
            && Run(cfg, core, steps) == Holding(core, s, WithPointers(core.mem.index, docs, ps))
            && forall i :: 0 <= i <= |docs| ==>
                 Points(cfg, core, steps)[i]
                   == Point(core.disk.(data := AppendEach(start, encs[..i]).0.data), core.hist)
  {
    var encs := Encodings(cfg, docs);
    var step := Step.Reserve(TotalBytes(encs));
    var c := Exec(cfg, core, step);
    var start := StoreOf(c);
    assert start == RecordStore.Reserve(StoreOf(core), TotalBytes(encs));
    WritesRun(cfg, c, docs);
    OnePoint(cfg, core, step);
    PointsAppend(cfg, core, [step], Writes(docs));
    forall i | 0 <= i <= |docs|
      ensures Points(cfg, core, [step] + Writes(docs))[i]
        == Point(core.disk.(data := AppendEach(start, encs[..i]).0.data), core.hist)
    {
      BatchPoint(cfg, c, docs, i);
    }
  }

  /** The disk after the growth and i records. */
  lemma BatchPoint(cfg: Config, grown: Core, docs: seq<Document>, i: nat)
    requires i <= |docs|
    ensures ([PointOf(grown)] + Points(cfg, grown, Writes(docs)))[i]
      == Point(grown.disk.(data := AppendEach(StoreOf(grown), Encodings(cfg, docs)[..i]).0.data), grown.hist)
  {
    var points, encs := Points(cfg, grown, Writes(docs)), Encodings(cfg, docs);
    if i == 0 {
      NoRecords(grown, encs);
    } else {
      var next := encs[..i];
      assert ([PointOf(grown)] + points)[i] == points[i - 1];
      WritesPoints(cfg, grown, docs, i - 1);
      assert encs[..i - 1 + 1] == next;
    }
  }

  lemma NoRecords(core: Core, encs: seq<seq<byte>>)
    ensures PointOf(core) == Point(core.disk.(data := AppendEach(StoreOf(core), encs[..0]).0.data), core.hist)
  {
    assert encs[..0] == [];
    assert AppendEach(StoreOf(core), []).0 == StoreOf(core);
  }

  class Collection {
    const cfg: Config
    const checkpointFrequency: nat
    // files
    var store: RF.RecordFile
    var wal: WF.WalFile
    var savedIndex: Index
    var savedIds: Option<set<Id>>
    var savedSeq: nat
    // memory
    var index: Index
    var ids: set<Id>
    var operationCount: nat
    // all operations ever logged, and the disk after every step so far
    ghost var hist: seq<Op>
    ghost var trace: seq<Point>

    ghost function View(): Core
      reads this, store, wal
    {
      Core(Disk(store.data, savedIndex, savedIds, wal.records, savedSeq), Mem(index, store.cursor, wal.nextSeq, ids),
           hist)
    }

    /** The steps taken since the state `before` with trace `past`. */
    ghost predicate Did(before: Core, past: seq<Point>, steps: seq<Step>)
      reads this, store, wal
    {
      View() == Run(cfg, before, steps) && trace == past + Points(cfg, before, steps)
    }

    /** The object invariant: files and memory agree with everything logged so far. */
    ghost predicate Sound() reads this, store, wal { CoreOk(cfg, View(), []) }

    /** The stored documents, as the pointers read them back. */
    ghost function Contents(): Docs reads this, store, wal { CurrentDocs(cfg, View()) }

    /** A fitting call on a sound collection keeps it sound and changes the documents by what it logs. */
    ghost predicate Keeps(before: Core, call: Call)
      reads this, store, wal
    {
      CoreOk(cfg, before, []) && CallOk(cfg, call, before) ==>
        Sound() && Contents() == ApplyAll(CallOps(cfg, call, before), CurrentDocs(cfg, before))
    }

    lemma Kept(before: Core, past: seq<Point>, call: Call, due: bool)
      requires Did(before, past, Program(cfg, call, before, due))
      ensures Keeps(before, call)
    {
      if CoreOk(cfg, before, []) && CallOk(cfg, call, before) { CallMeaning(cfg, call, before, due); }
    }

    lemma KeptStoring(before: Core, past: seq<Point>, call: Call, due: bool)
      requires (call.Insert? || call.Upsert?) && Did(before, past, Program(cfg, call, before, due))
      ensures Keeps(before, call)
      ensures CoreOk(cfg, before, []) && cfg.Fits(call.doc) ==>
        Sound() && Contents() == CurrentDocs(cfg, before)[call.doc.id := call.doc]
    {
      Kept(before, past, call, due);
      if CoreOk(cfg, before, []) && cfg.Fits(call.doc) { StoringCall(cfg, call, before, due); }
    }

    lemma KeptUpkeep(before: Core, past: seq<Point>, call: Call, due: bool)
      requires Did(before, past, Program(cfg, call, before, due))
      requires call.Checkpoint? || call.RebuildIndex? ||
               (call.Compact? && Enumerates(call.order, before.mem.index.Keys))
      ensures Keeps(before, call)
      ensures CoreOk(cfg, before, []) ==> Sound() && Contents() == CurrentDocs(cfg, before)
    {
      Kept(before, past, call, due);
      if CoreOk(cfg, before, []) { UpkeepCall(cfg, call, before, due); }
    }

    lemma KeptMetadata(before: Core, past: seq<Point>, id: Id, metadata: Metadata, due: bool)
      requires Did(before, past, Program(cfg, Call.UpdateMetadata(id, metadata), before, due))
      ensures var docs := CurrentDocs(cfg, before);
              CoreOk(cfg, before, []) && (id in docs ==> cfg.Fits(docs[id].(metadata := metadata))) ==>
                Contents() == if id in docs then docs[id := docs[id].(metadata := metadata)] else docs
    {
      var docs := CurrentDocs(cfg, before);
      if CoreOk(cfg, before, []) && (id in docs ==> cfg.Fits(docs[id].(metadata := metadata))) {
        MetadataCall(cfg, id, metadata, before, due);
      }
    }

    lemma KeptVector(before: Core, past: seq<Point>, id: Id, vector: Vec, due: bool)
      requires Did(before, past, Program(cfg, Call.UpdateVector(id, vector), before, due))
      ensures var docs := CurrentDocs(cfg, before);
              CoreOk(cfg, before, []) && (id in docs ==> cfg.Fits(docs[id].(vector := vector))) ==>
                Contents() == if id in docs then docs[id := docs[id].(vector := vector)] else docs
    {
      var docs := CurrentDocs(cfg, before);
      if CoreOk(cfg, before, []) && (id in docs ==> cfg.Fits(docs[id].(vector := vector))) {
        VectorCall(cfg, id, vector, before, due);
      }
    }

    /** Records that one more step has just been taken. */
    ghost method Mark(before: Core, past: seq<Point>, done: seq<Step>, step: Step)
      requires View() == Exec(cfg, Run(cfg, before, done), step) && trace == past + Points(cfg, before, done)
      modifies `trace
      ensures Did(before, past, done + [step])
    {
      OnePoint(cfg, Run(cfg, before, done), step);
      PointsAppend(cfg, before, done, [step]);
      trace := trace + [PointOf(View())];
    }

    // ----- single steps

    method LogOp(op: Op, ghost before: Core, ghost past: seq<Point>, ghost done: seq<Step>)
      requires Did(before, past, done)
      modifies this, wal
      ensures store == old(store) && wal == old(wal) && index == old(index) && operationCount == old(operationCount)
      ensures Did(before, past, done + [Step.Log(op)])
    {
      wal.LogOp(op);
      hist := hist + [op];
      Mark(before, past, done, Step.Log(op));
    }

    method InsertInternal(doc: Document)
      modifies `index, `ids, store
      ensures View() == Exec(cfg, old(View()), Step.Apply(Op.Insert(doc)))
    {
      var bytes := cfg.enc(doc);
      var p := store.Append(bytes);
      index := index[doc.id := p];
      ids := ids + {doc.id};
    }

    method DeleteInternal(id: Id)
      modifies `index, `ids
      ensures View() == Exec(cfg, old(View()), Step.Apply(Op.Delete(id)))
    {
      index := index - {id};
      ids := ids - {id};
    }

    /** `insert_internal`, `delete_internal`, or one after the other, as replay and `upsert` do. */
    method ApplyOp(op: Op, ghost before: Core, ghost past: seq<Point>, ghost done: seq<Step>)
      requires Did(before, past, done)
      modifies this, store
      ensures store == old(store) && wal == old(wal) && operationCount == old(operationCount)
      ensures Did(before, past, done + [Step.Apply(op)])
    {
      match op {
        case Insert(doc) => InsertInternal(doc);
        case Update(doc) =>
          ghost var was := ids;
          DeleteInternal(doc.id);
          InsertInternal(doc);
          assert was - {doc.id} + {doc.id} == was + {doc.id};
        case Delete(id) => DeleteInternal(id);
      }
      Mark(before, past, done, Step.Apply(op));
    }

    // ----- checkpoint and recovery

    method SaveIndexFile(ghost before: Core, ghost past: seq<Point>, ghost done: seq<Step>)
      requires Did(before, past, done)
      modifies `savedIndex, `trace
      ensures Did(before, past, done + [SaveIndex])
    {
      savedIndex := index;
      Mark(before, past, done, SaveIndex);
    }

    method SaveVectorIndex(ghost before: Core, ghost past: seq<Point>, ghost done: seq<Step>)
      requires Did(before, past, done)
      modifies `savedIds, `trace
      ensures Did(before, past, done + [SaveIds])
    {
      savedIds := Some(ids);
      Mark(before, past, done, SaveIds);
    }

    method LogCheckpoint(ghost before: Core, ghost past: seq<Point>, ghost done: seq<Step>)
      requires Did(before, past, done)
      modifies `trace, wal
      ensures Did(before, past, done + [LogMark])
    {
      wal.LogMark();
      Mark(before, past, done, LogMark);
    }

    method SaveWalMeta(ghost before: Core, ghost past: seq<Point>, ghost done: seq<Step>)
      requires Did(before, past, done)
      modifies `savedSeq, `trace
      ensures Did(before, past, done + [SaveSeq])
    {
      savedSeq := if wal.nextSeq == 0 then 0 else wal.nextSeq - 1;
      Mark(before, past, done, SaveSeq);
    }

    method RotateWal(ghost before: Core, ghost past: seq<Point>, ghost done: seq<Step>)
      requires Did(before, past, done)
      modifies `trace, wal
      ensures Did(before, past, done + [Rotate])
    {
      wal.Rotate();
      Mark(before, past, done, Rotate);
    }

    method SaveCheckpoint(ghost before: Core, ghost past: seq<Point>, ghost done: seq<Step>)
      requires Did(before, past, done)
      modifies this, wal
      ensures store == old(store) && wal == old(wal) && operationCount == old(operationCount)
      ensures Did(before, past, done + CHECKPOINT)
    {
      ghost var d1 := done + [SaveIndex];
      ghost var d2 := d1 + [SaveIds];
      ghost var d3 := d2 + [LogMark];
      ghost var d4 := d3 + [SaveSeq];
      SaveIndexFile(before, past, done);
      SaveVectorIndex(before, past, d1);
      LogCheckpoint(before, past, d2);
      SaveWalMeta(before, past, d3);
      RotateWal(before, past, d4);
      CheckpointSteps(done);
    }

    /** Counts the operation and checkpoints when the frequency or the interval calls for it. */
    method TrackOperation(intervalDue: bool, ghost before: Core, ghost past: seq<Point>, ghost done: seq<Step>)
      returns (due: bool)
      requires Did(before, past, done)
      modifies this, wal
      ensures store == old(store) && wal == old(wal)
      ensures due <==> old(operationCount) + 1 >= checkpointFrequency || intervalDue
      ensures operationCount == if due then 0 else old(operationCount) + 1
      ensures Did(before, past, done + CheckpointIf(due))
    {
      operationCount := operationCount + 1;
      due := operationCount >= checkpointFrequency || intervalDue;
      if due {
        SaveCheckpoint(before, past, done);
        operationCount := 0;
      } else {
        assert done + CheckpointIf(due) == done;
      }
    }

    method ReplayEntries(entries: seq<Record>)
      modifies this, store
      ensures store == old(store) && wal == old(wal) && operationCount == old(operationCount)
      ensures Did(old(View()), old(trace), Applies(Ops(entries)))
    {
      ghost var before, past := View(), trace;
      ghost var ops: seq<Op> := [];
      var rest := entries;
      assert Points(cfg, before, Applies([])) == [];
      while rest != []
        invariant store == old(store) && wal == old(wal) && operationCount == old(operationCount)
        invariant ops + Ops(rest) == Ops(entries)
        invariant Did(before, past, Applies(ops))
        decreases |rest|
      {
        if rest[0].Entry? {
          ApplyOp(rest[0].op, before, past, Applies(ops));
          assert Applies(ops) + [Step.Apply(rest[0].op)] == Applies(ops + [rest[0].op]);
          ops := ops + [rest[0].op];
        }
        rest := rest[1..];
      }
      assert ops == Ops(entries);
    }

    /** Opens whatever a crash left on disk. */
    constructor Open(cfg: Config, checkpointFrequency: nat, disk: Disk, ghost hist: seq<Op>)
      ensures fresh(store) && fresh(wal)
      ensures this.cfg == cfg && Did(Load(cfg, disk, hist), [], RecoverySteps(disk))
      ensures DiskOk(cfg, disk, hist) ==> Sound() && CurrentDocs(cfg, View()) == Current(hist)
    {
      this.cfg, this.checkpointFrequency := cfg, checkpointFrequency;
      store := new RF.RecordFile(disk.data, cfg.initial, disk.saved);
      wal := new WF.WalFile(disk.wal, disk.ckpt + 1);
      savedIndex, savedIds, savedSeq := disk.saved, disk.savedIds, disk.ckpt;
      index, operationCount := disk.saved, 0;
      this.hist, trace := hist, [];
      ids := if disk.savedIds.Some? then disk.savedIds.value else {};
      new;
      Recover(disk, hist);
      Recovered(disk, hist);
    }

    /** The files as loaded; a missing vector index starts out empty. */
    ghost predicate Loaded(disk: Disk, hist: seq<Op>)
      reads this, store, wal
    {
      var core := Load(cfg, disk, hist);
      && trace == [] && savedSeq == disk.ckpt && wal.records == disk.wal
      && View() == core.(mem := core.mem.(ids := ids))
      && ids == match disk.savedIds { case Some(saved) => saved case None => {} }
    }

    method Recover(ghost disk: Disk, ghost hist: seq<Op>)
      requires Loaded(disk, hist)
      modifies this, store, wal
      ensures store == old(store) && wal == old(wal)
      ensures Did(Load(cfg, disk, hist), [], RecoverySteps(disk))
    {
      var entries := wal.Replay(savedSeq);
      if entries != [] {
        ReplayEntries(entries);
        SaveCheckpoint(Load(cfg, disk, hist), [], Applies(Ops(entries)));
      } else if savedIds == None {
        ids := index.Keys;
      }
    }

    lemma Recovered(disk: Disk, hist: seq<Op>)
      requires Did(Load(cfg, disk, hist), [], RecoverySteps(disk))
      ensures DiskOk(cfg, disk, hist) ==> Sound() && CurrentDocs(cfg, View()) == Current(hist)
    {
      assert View() == Reopen(cfg, disk, hist);
      if DiskOk(cfg, disk, hist) { ReopenHolds(cfg, disk, hist); }
    }

    // ----- public operations

    method Get(id: Id) returns (r: Result<Option<Document>, ReadError>)
      ensures id !in index ==> r == Ok(None)
      ensures id in index && ReadDoc(cfg, store.data, index[id]).Some? ==> r == Ok(ReadDoc(cfg, store.data, index[id]))
      ensures id in index && ReadDoc(cfg, store.data, index[id]).None? ==> r == Err(ReadFailed)
      ensures Sound() ==> r == Ok(if id in Contents() then Some(Contents()[id]) else None)
    {
      if Sound() { SoundReads(id); }
      if id !in index { return Ok(None); }
      var bytes := store.ReadBytes(index[id]);
      if bytes == None { return Err(ReadFailed); }
      var doc := cfg.dec(bytes.value);
      if doc == None { return Err(ReadFailed); }
      return Ok(doc);
    }

    /** Whether a checkpoint was due, and the counter afterwards; a call that does nothing is not counted. */
    ghost predicate Tracked(count: nat, counted: bool, intervalDue: bool, due: bool)
      reads `operationCount
    {
      && (due <==> counted && (count + 1 >= checkpointFrequency || intervalDue))
      && operationCount == if due then 0 else if counted then count + 1 else count
    }

    /** Log one operation, apply it, and track it. */
    method LogApplyTrack(op: Op, intervalDue: bool) returns (due: bool)
      modifies this, store, wal
      ensures store == old(store) && wal == old(wal) && Tracked(old(operationCount), true, intervalDue, due)
      ensures Did(old(View()), old(trace), Logs([op]) + (Applies([op]) + CheckpointIf(due)))
    {
      ghost var before, past := View(), trace;
      assert Points(cfg, before, []) == [];
      LogOp(op, before, past, []);
      ApplyOp(op, before, past, [] + [Step.Log(op)]);
      due := TrackOperation(intervalDue, before, past, [] + [Step.Log(op)] + [Step.Apply(op)]);
      assert [] + [Step.Log(op)] + [Step.Apply(op)] + CheckpointIf(due)
        == Logs([op]) + (Applies([op]) + CheckpointIf(due));
    }

    method Insert(doc: Document, intervalDue: bool) returns (id: Id, due: bool)
      modifies this, store, wal
      ensures id == doc.id && Did(old(View()), old(trace), Program(cfg, Call.Insert(doc), old(View()), due))
      ensures Tracked(old(operationCount), true, intervalDue, due)
      ensures Keeps(old(View()), Call.Insert(doc))
      ensures old(Sound()) && cfg.Fits(doc) ==> Sound() && Contents() == old(Contents())[doc.id := doc]
    {
      ghost var before, past := View(), trace;
      due := LogApplyTrack(Op.Insert(doc), intervalDue);
      KeptStoring(before, past, Call.Insert(doc), due);
      id := doc.id;
    }

    method Upsert(doc: Document, intervalDue: bool) returns (id: Id, due: bool)
      modifies this, store, wal
      ensures id == doc.id && Did(old(View()), old(trace), Program(cfg, Call.Upsert(doc), old(View()), due))
      ensures Tracked(old(operationCount), true, intervalDue, due)
      ensures Keeps(old(View()), Call.Upsert(doc))
      ensures old(Sound()) && cfg.Fits(doc) ==> Sound() && Contents() == old(Contents())[doc.id := doc]
    {
      ghost var before, past := View(), trace;
      if doc.id in index {
        due := LogApplyTrack(Op.Update(doc), intervalDue);
        id := doc.id;
      } else {
        id, due := Insert(doc, intervalDue);
      }
      KeptStoring(before, past, Call.Upsert(doc), due);
    }

    method Delete(id: Id, intervalDue: bool) returns (found: bool, due: bool)
      modifies this, store, wal
      ensures found == (id in old(index))
      ensures Did(old(View()), old(trace), Program(cfg, Call.Delete(id), old(View()), due))
      ensures Tracked(old(operationCount), found, intervalDue, due)
      ensures Keeps(old(View()), Call.Delete(id))
      ensures old(Sound()) ==> Sound() && Contents() == old(Contents()) - {id}
    {
      ghost var before, past := View(), trace;
      found := id in index;
      if found {
        due := LogApplyTrack(Op.Delete(id), intervalDue);
      } else {
        due := false;
        assert Points(cfg, View(), []) == [];
      }
      Kept(before, past, Call.Delete(id), due);
      if CoreOk(cfg, before, []) { DeleteCall(cfg, id, before, due); }
    }

    method UpdateVector(id: Id, vector: Vec, intervalDue: bool) returns (r: Result<bool, ReadError>, due: bool)
      modifies this, store, wal
      ensures r.Ok? ==> r.value == (id in old(index))
      ensures r.Err? <==> id in old(index) && id !in old(CurrentDocs(cfg, View()))
      ensures Did(old(View()), old(trace), Program(cfg, Call.UpdateVector(id, vector), old(View()), due))
      ensures Tracked(old(operationCount), r == Ok(true), intervalDue, due)
      ensures Keeps(old(View()), Call.UpdateVector(id, vector))
      ensures old(Sound()) && (r == Ok(true) ==> cfg.Fits(old(Contents())[id].(vector := vector))) ==>
        && Sound() && r.Ok?
        && Contents() == if r.value then old(Contents())[id := old(Contents())[id].(vector := vector)]
                         else old(Contents())
    {
      ghost var before, past := View(), trace;
      var got := Get(id);
      due := false;
      assert Points(cfg, View(), []) == [];
      if got.Err? {
        r := Err(got.error);
      } else if got.value == None {
        r := Ok(false);
      } else {
        due := LogApplyTrack(Op.Update(got.value.value.(vector := vector)), intervalDue);
        r := Ok(true);
      }
      Kept(before, past, Call.UpdateVector(id, vector), due);
      KeptVector(before, past, id, vector, due);
    }

    /** A record and its pointer, without touching the vector index. */
    method WriteRecord(doc: Document, ghost before: Core, ghost past: seq<Point>, ghost done: seq<Step>)
      requires Did(before, past, done)
      modifies this, store
      ensures store == old(store) && wal == old(wal) && operationCount == old(operationCount)
      ensures Did(before, past, done + [Write(doc)])
    {
      var p := store.Append(cfg.enc(doc));
      index := index[doc.id := p];
      Mark(before, past, done, Write(doc));
    }

    /** An unreadable record is an error that changes nothing; a sound collection has none. */
    method UpdateMetadata(id: Id, metadata: Metadata, intervalDue: bool) returns (r: Result<bool, ReadError>, due: bool)
      modifies this, store, wal
      ensures r.Ok? ==> r.value == (id in old(index))
      ensures r.Err? <==> id in old(index) && id !in old(CurrentDocs(cfg, View()))
      ensures r != Ok(true) ==> View() == old(View()) && trace == old(trace)
      ensures old(Sound()) ==>
        r.Ok? && Did(old(View()), old(trace), Program(cfg, Call.UpdateMetadata(id, metadata), old(View()), due))
      ensures Tracked(old(operationCount), r == Ok(true), intervalDue, due)
      ensures Keeps(old(View()), Call.UpdateMetadata(id, metadata))
      ensures old(Sound()) && (r == Ok(true) ==> cfg.Fits(old(Contents())[id].(metadata := metadata))) ==>
        && Sound() && r.Ok?
        && Contents() == if r.value then old(Contents())[id := old(Contents())[id].(metadata := metadata)]
                         else old(Contents())
    {
      ghost var before, past := View(), trace;
      ghost var sound := Sound();
      if Sound() { SoundReads(id); }
      var got := Get(id);
      due := false;
      assert Points(cfg, before, []) == [];
      if got.Err? {
        r := Err(got.error);
      } else if got.value == None {
        r := Ok(false);
      } else {
        due := RewriteMetadata(got.value.value.(metadata := metadata), intervalDue);
        r := Ok(true);
      }
      if sound {
        Kept(before, past, Call.UpdateMetadata(id, metadata), due);
        KeptMetadata(before, past, id, metadata, due);
      }
    }

    /** In a sound collection every pointer reads back a document that carries the id it is filed under. */
    lemma SoundReads(id: Id)
      requires Sound()
      ensures Readable(cfg, store.data, index) && index.Keys == CurrentDocs(cfg, View()).Keys
      ensures id in index ==> ReadDoc(cfg, store.data, index[id]) == Some(CurrentDocs(cfg, View())[id])
      ensures id in index ==> CurrentDocs(cfg, View())[id].id == id
    {
      if id in index { CurrentFits(cfg, hist, id); }
    }

    method RewriteMetadata(doc: Document, intervalDue: bool) returns (due: bool)
      modifies this, store, wal
      ensures Tracked(old(operationCount), true, intervalDue, due)
      ensures Did(old(View()), old(trace), Logs([Op.Update(doc)]) + ([Write(doc)] + CheckpointIf(due)))
    {
      ghost var before, past := View(), trace;
      assert Points(cfg, before, []) == [];
      LogOp(Op.Update(doc), before, past, []);
      ghost var done := [] + [Step.Log(Op.Update(doc))];
      WriteRecord(doc, before, past, done);
      due := TrackOperation(intervalDue, before, past, done + [Write(doc)]);
      assert done + [Write(doc)] + CheckpointIf(due) == Logs([Op.Update(doc)]) + ([Write(doc)] + CheckpointIf(due));
    }

    method DeleteBatch(list: seq<Id>, intervalDue: bool) returns (deleted: nat, due: bool)
      modifies this, store, wal
      ensures deleted == |DeletesApplied(list, old(index.Keys))|
      ensures Did(old(View()), old(trace), Program(cfg, Call.DeleteBatch(list), old(View()), due))
      ensures Tracked(old(operationCount), deleted > 0, intervalDue, due)
      ensures Keeps(old(View()), Call.DeleteBatch(list))
      ensures old(Sound()) ==> Sound() && Contents() == old(Contents()) - set id | id in list
    {
      ghost var before, past, keys := View(), trace, index.Keys;
      ghost var logged := DeletesLogged(list, keys);
      LogDeletes(list);
      deleted := ApplyDeletes(list, before, past, Logs(logged));
      ghost var applied := DeletesApplied(list, keys);
      due := false;
      if deleted > 0 {
        due := TrackOperation(intervalDue, before, past, Logs(logged) + Applies(applied));
      }
      DeleteProgram(cfg, list, before, due);
      Kept(before, past, Call.DeleteBatch(list), due);
      if CoreOk(cfg, before, []) { DeleteBatchMeaning(cfg, before, list, due); }
    }

    /** First loop of `delete_batch`. */
    method LogDeletes(list: seq<Id>)
      modifies this, wal
      ensures store == old(store) && wal == old(wal) && index == old(index) && operationCount == old(operationCount)
      ensures Did(old(View()), old(trace), Logs(DeletesLogged(list, old(index.Keys))))
    {
      ghost var before, past, keys := View(), trace, index.Keys;
      ghost var logged: seq<Op> := [];
      var rest := list;
      assert Points(cfg, before, Logs([])) == [];
      while rest != []
        invariant store == old(store) && wal == old(wal)
        invariant index == old(index) && operationCount == old(operationCount)
        invariant logged + DeletesLogged(rest, keys) == DeletesLogged(list, keys)
        invariant Did(before, past, Logs(logged))
        decreases |rest|
      {
        if rest[0] in index {
          LogOp(Op.Delete(rest[0]), before, past, Logs(logged));
          assert Logs(logged) + [Step.Log(Op.Delete(rest[0]))] == Logs(logged + [Op.Delete(rest[0])]);
          logged := logged + [Op.Delete(rest[0])];
        }
        rest := rest[1..];
      }
      assert logged == DeletesLogged(list, keys);
    }

    /** Second loop of `delete_batch`. */
    method ApplyDeletes(list: seq<Id>, ghost before: Core, ghost past: seq<Point>, ghost done: seq<Step>)
      returns (deleted: nat)
      requires Did(before, past, done)
      modifies this, store
      ensures store == old(store) && wal == old(wal) && operationCount == old(operationCount)
      ensures deleted == |DeletesApplied(list, old(index.Keys))|
      ensures Did(before, past, done + Applies(DeletesApplied(list, old(index.Keys))))
    {
      ghost var all := DeletesApplied(list, index.Keys);
      ghost var applied: seq<Op> := [];
      var rest := list;
      deleted := 0;
      assert done + Applies(applied) == done;
      while rest != []
        invariant store == old(store) && wal == old(wal) && operationCount == old(operationCount)
        invariant deleted == |applied|
        invariant applied + DeletesApplied(rest, index.Keys) == all
        invariant Did(before, past, done + Applies(applied))
        decreases |rest|
      {
        if rest[0] in index {
          ghost var keys := index.Keys;
          ApplyDelete(rest[0], before, past, done + Applies(applied));
          assert done + Applies(applied) + [Step.Apply(Op.Delete(rest[0]))]
            == done + Applies(applied + [Op.Delete(rest[0])]);
          applied := applied + [Op.Delete(rest[0])];
          deleted := deleted + 1;
        }
        rest := rest[1..];
      }
      assert applied == all;
    }

    method ApplyDelete(id: Id, ghost before: Core, ghost past: seq<Point>, ghost done: seq<Step>)
      requires Did(before, past, done)
      modifies this
      ensures store == old(store) && wal == old(wal) && operationCount == old(operationCount)
      ensures index.Keys == old(index.Keys) - {id}
      ensures Did(before, past, done + [Step.Apply(Op.Delete(id))])
    {
      DeleteInternal(id);
      Mark(before, past, done, Step.Apply(Op.Delete(id)));
    }

    /** The public `checkpoint`. */
    method Checkpoint()
      modifies this, wal
      ensures Did(old(View()), old(trace), Program(cfg, Call.Checkpoint, old(View()), true))
      ensures Keeps(old(View()), Call.Checkpoint)
      ensures old(Sound()) ==> Sound() && Contents() == old(Contents())
    {
      ghost var before, past := View(), trace;
      assert Points(cfg, before, []) == [];
      SaveCheckpoint(before, past, []);
      assert [] + CHECKPOINT == CHECKPOINT;
      KeptUpkeep(before, past, Call.Checkpoint, true);
    }

    method RebuildIndex()
      modifies this
      ensures Did(old(View()), old(trace), Program(cfg, Call.RebuildIndex, old(View()), true))
      ensures Keeps(old(View()), Call.RebuildIndex)
      ensures old(Sound()) ==> Sound() && Contents() == old(Contents())
    {
      ghost var before, past := View(), trace;
      assert Points(cfg, before, []) == [];
      ids := index.Keys;
      savedIds := Some(ids);
      Mark(before, past, [], RebuildIds);
      KeptUpkeep(before, past, Call.RebuildIndex, true);
    }

    /** First loop of `insert_batch`. */
    method LogInserts(docs: seq<Document>)
      modifies this, wal
      ensures store == old(store) && wal == old(wal) && operationCount == old(operationCount)
      ensures Did(old(View()), old(trace), Logs(Inserts(docs)))
    {
      ghost var before, past := View(), trace;
      assert Points(cfg, before, Logs(Inserts([]))) == [];
      var i := 0;
      assert docs[..0] == [];
      while i < |docs|
        invariant 0 <= i <= |docs|
        invariant store == old(store) && wal == old(wal) && operationCount == old(operationCount)
        invariant Did(before, past, Logs(Inserts(docs[..i])))
      {
        ghost var done, next := docs[..i], docs[..i + 1];
        LogOp(Op.Insert(docs[i]), before, past, Logs(Inserts(done)));
        assert Logs(Inserts(done)) + [Step.Log(Op.Insert(docs[i]))] == Logs(Inserts(next));
        i := i + 1;
      }
      assert docs[..i] == docs;
    }

    method EncodeAll(docs: seq<Document>) returns (encs: seq<seq<byte>>)
      ensures encs == Encodings(cfg, docs)
    {
      encs := [];
      for i := 0 to |docs|
        invariant |encs| == i && forall j :: 0 <= j < i ==> encs[j] == cfg.enc(docs[j])
      {
        encs := encs + [cfg.enc(docs[i])];
      }
    }

    /** The pointer loop of `insert_batch`. */
    method IndexPointers(docs: seq<Document>, ps: seq<Pointer>) returns (list: seq<Id>)
      requires |docs| == |ps|
      modifies `index
      ensures index == WithPointers(old(index), docs, ps)
      ensures |list| == |docs| && forall i :: 0 <= i < |docs| ==> list[i] == docs[i].id
    {
      list := [];
      var i := 0;
      while i < |docs|
        invariant 0 <= i <= |docs| && |list| == i
        invariant WithPointers(index, docs[i..], ps[i..]) == WithPointers(old(index), docs, ps)
        invariant forall j :: 0 <= j < i ==> list[j] == docs[j].id
      {
        assert docs[i..][1..] == docs[i + 1..] && ps[i..][1..] == ps[i + 1..];
        index := index[docs[i].id := ps[i]];
        list := list + [docs[i].id];
        i := i + 1;
      }
    }

    /** `append_batch` followed by the pointer loop. */
    method WriteBatch(docs: seq<Document>) returns (list: seq<Id>)
      modifies this, store
      ensures store == old(store) && wal == old(wal) && operationCount == old(operationCount)
      ensures |list| == |docs| && forall i :: 0 <= i < |docs| ==> list[i] == docs[i].id
      ensures Did(old(View()), old(trace), [Step.Reserve(TotalBytes(Encodings(cfg, docs)))] + Writes(docs))
    {
      ghost var before := View();
      BatchRun(cfg, before, docs);
      var encs := EncodeAll(docs);
      ghost var snaps;
      var ps;
      ps, snaps := store.AppendBatch(encs);
      list := IndexPointers(docs, ps);
      ghost var seen := seq(|snaps|, i requires 0 <= i < |snaps| => Point(before.disk.(data := snaps[i]), before.hist));
      trace := trace + seen;
      assert seen == Points(cfg, before, [Step.Reserve(TotalBytes(encs))] + Writes(docs));
    }

    /** The vector-index loop of `insert_batch`, after a checkpoint may already have happened. */
    method IndexVectors(docs: seq<Document>)
      modifies this
      ensures store == old(store) && wal == old(wal) && operationCount == old(operationCount)
      ensures Did(old(View()), old(trace), IndexIds(docs))
    {
      ghost var before, past := View(), trace;
      assert Points(cfg, before, IndexIds([])) == [];
      var i := 0;
      assert docs[..0] == [];
      while i < |docs|
        invariant 0 <= i <= |docs| && store == old(store) && wal == old(wal) && operationCount == old(operationCount)
        invariant Did(before, past, IndexIds(docs[..i]))
      {
        ghost var done, next := docs[..i], docs[..i + 1];
        ids := ids + {docs[i].id};
        Mark(before, past, IndexIds(done), IndexId(docs[i].id));
        assert IndexIds(done) + [IndexId(docs[i].id)] == IndexIds(next);
        i := i + 1;
      }
      assert docs[..i] == docs;
    }

    lemma Chain(before: Core, past: seq<Point>, a: seq<Step>, mid: Core, midPast: seq<Point>, b: seq<Step>)
      requires mid == Run(cfg, before, a) && midPast == past + Points(cfg, before, a) && Did(mid, midPast, b)
      ensures Did(before, past, a + b)
    {
      PointsAppend(cfg, before, a, b);
    }

    /** The first half of `insert_batch`: every record is logged, then every document is written. */
    method LogAndWrite(docs: seq<Document>) returns (list: seq<Id>)
      modifies this, store, wal
      ensures store == old(store) && wal == old(wal) && operationCount == old(operationCount)
      ensures |list| == |docs| && forall i :: 0 <= i < |docs| ==> list[i] == docs[i].id
      ensures Did(old(View()), old(trace), BatchWrites(cfg, docs))
    {
      ghost var before, past := View(), trace;
      LogInserts(docs);
      ghost var mid, midPast := View(), trace;
      list := WriteBatch(docs);
      Chain(before, past, Logs(Inserts(docs)), mid, midPast,
            [Step.Reserve(TotalBytes(Encodings(cfg, docs)))] + Writes(docs));
    }

    method InsertBatch(docs: seq<Document>, intervalDue: bool) returns (list: seq<Id>, due: bool)
      modifies this, store, wal
      ensures |list| == |docs| && forall i :: 0 <= i < |docs| ==> list[i] == docs[i].id
      ensures Did(old(View()), old(trace), Program(cfg, Call.InsertBatch(docs), old(View()), due))
      ensures Tracked(old(operationCount), true, intervalDue, due)
      ensures Keeps(old(View()), Call.InsertBatch(docs))
      ensures old(Sound()) && (forall doc :: doc in docs ==> cfg.Fits(doc)) ==>
        Sound() && Contents() == Stored(old(Contents()), docs, |docs|)
    {
      ghost var before, past, first := View(), trace, BatchWrites(cfg, docs);
      list := LogAndWrite(docs);
      due := TrackOperation(intervalDue, before, past, first);
      ghost var late, latePast, done := View(), trace, first + CheckpointIf(due);
      IndexVectors(docs);
      Chain(before, past, done, late, latePast, IndexIds(docs));
      BatchProgram(cfg, docs, before, due);
      Kept(before, past, Call.InsertBatch(docs), due);
      if CoreOk(cfg, before, []) && (forall doc :: doc in docs ==> cfg.Fits(doc)) { BatchCall(cfg, docs, before, due); }
    }

    /** `get_all`: the documents in the order the index lists them, or the first read error. */
    method GetAll(order: seq<Id>) returns (r: Result<seq<Document>, ReadError>)
      requires Enumerates(order, index.Keys)
      ensures r.Ok? <==> Readable(cfg, store.data, index)
      ensures r.Ok? ==> InOrder(order, CurrentDocs(cfg, View()), r.value)
    {
      var docs: seq<Document> := [];
      while |docs| < |order|
        invariant |docs| <= |order|
        invariant forall i :: 0 <= i < |docs| ==>
          order[i] in index && Some(docs[i]) == ReadDoc(cfg, store.data, index[order[i]])
      {
        assert order[|docs|] in order;
        var got := Get(order[|docs|]);
        if got.Err? { return Err(got.error); }
        docs := docs + [got.value.value];
      }
      ReadsAreDocs(order, docs);
      r := Ok(docs);
    }

    /** The copying loop of `compact`. */
    method CopyLive(order: seq<Id>, docs: seq<Document>) returns (temp: RF.RecordFile, pointers: Index)
      requires InOrder(order, CurrentDocs(cfg, View()), docs)
      ensures fresh(temp)
      ensures (temp.View(), pointers)
        == CopyInto(cfg, CurrentDocs(cfg, View()), order, Store(Zeros(cfg.initial), 0), map[])
    {
      ghost var live := CurrentDocs(cfg, View());
      ghost var all := CopyInto(cfg, live, order, Store(Zeros(cfg.initial), 0), map[]);
      temp := new RF.RecordFile([], cfg.initial, map[]);
      assert temp.View() == Store(Zeros(cfg.initial), 0);
      pointers := map[];
      var rest := docs;
      ghost var left := order;
      while rest != []
        invariant fresh(temp) && InOrder(left, live, rest)
        invariant CopyInto(cfg, live, left, temp.View(), pointers) == all
        decreases |rest|
      {
        var doc := rest[0];
        var p := temp.Append(cfg.enc(doc));
        pointers := pointers[doc.id := p];
        rest, left := rest[1..], left[1..];
      }
    }

    /** The swap, the saves and the rotation at the end of `compact`. */
    method SwapIn(temp: RF.RecordFile, pointers: Index)
      modifies this, wal
      ensures wal == old(wal) && fresh(store) && trace == old(trace) && index == pointers
      ensures View() == Core(Disk(EnsureSize(temp.data, cfg.initial), pointers, Some(pointers.Keys), [], old(savedSeq)),
                             Mem(pointers, MaxEnd(pointers), old(wal.nextSeq), pointers.Keys), old(hist))
    {
      store := new RF.RecordFile(temp.data, cfg.initial, pointers);
      index, ids := pointers, pointers.Keys;
      savedIndex, savedIds := index, Some(ids);
      wal.Rotate();
    }

    /**
     * Copies every live document, in some order, to a fresh file and swaps it in; returns the number of entries
     * before and after.  An unreadable record is an error that changes nothing; a sound collection has none.
     */
    method Compact(order: seq<Id>) returns (r: Result<(nat, nat), ReadError>)
      requires Enumerates(order, index.Keys)
      modifies this, wal
      ensures wal == old(wal) && (r.Ok? <==> old(Readable(cfg, store.data, index)))
      ensures r.Err? ==> store == old(store) && View() == old(View()) && trace == old(trace)
      ensures r.Ok? ==> fresh(store) && r.value == (|old(index)|, |index|)
      ensures r.Ok? ==> Did(old(View()), old(trace), Program(cfg, Call.Compact(order), old(View()), true))
      ensures old(Sound()) ==> r.Ok? && Sound() && Contents() == old(Contents())
      ensures r.Ok? ==> Keeps(old(View()), Call.Compact(order))
    {
      if Sound() { SoundIsReadable(); }
      var docs := GetAll(order);
      if docs.Err? { return Err(docs.error); }
      var original := |index|;
      CopyAndSwap(order, docs.value);
      r := Ok((original, |index|));
    }

    method CopyAndSwap(order: seq<Id>, docs: seq<Document>)
      requires InOrder(order, CurrentDocs(cfg, View()), docs) && Enumerates(order, index.Keys)
      modifies this, wal
      ensures wal == old(wal) && fresh(store)
      ensures Did(old(View()), old(trace), Program(cfg, Call.Compact(order), old(View()), true))
      ensures Keeps(old(View()), Call.Compact(order))
      ensures old(Sound()) ==> Sound() && Contents() == old(Contents())
    {
      ghost var before, past := View(), trace;
      var temp, pointers := CopyLive(order, docs);
      SwapIn(temp, pointers);
      assert Points(cfg, before, []) == [];
      Mark(before, past, [], Step.Compact(order));
      KeptUpkeep(before, past, Call.Compact(order), true);
    }

    lemma SoundIsReadable()
      requires Sound()
      ensures Readable(cfg, store.data, index)
    {}

    lemma ReadsAreDocs(order: seq<Id>, docs: seq<Document>)
      requires |docs| == |order|
      requires forall i :: 0 <= i < |order| ==>
        order[i] in index && Some(docs[i]) == ReadDoc(cfg, store.data, index[order[i]])
      ensures InOrder(order, CurrentDocs(cfg, View()), docs)
      decreases |order|
    {
      if order != [] {
        assert ReadDoc(cfg, View().disk.data, View().mem.index[order[0]]).Some?;
        ReadsAreDocs(order[1..], docs[1..]);
      }
    }
  }
}
