/** Each step keeps the invariant, each program is safe to start, hence every run and every reopening is safe. */
module CrashTheorem {
  import opened Types
  import opened RecordStore
  import opened Log
  import opened Recovery
  import opened CrashSafety

  // ----- one step

  /** `c` differs from `core` only in file contents and live pointers, and now holds `docs`. */
  ghost predicate Moved(cfg: Config, core: Core, c: Core, docs: Docs) {
    && DiskOk(cfg, c.disk, c.hist) && MemOk(cfg, c.disk, c.mem) && CurrentDocs(cfg, c) == docs
    && DocsOf(cfg, c.disk.data, c.disk.saved) == DocsOf(cfg, core.disk.data, core.disk.saved)
    && c.disk == core.disk.(data := c.disk.data) && c.mem.nextSeq == core.mem.nextSeq && c.hist == core.hist
  }

  lemma WriteKeeps(cfg: Config, core: Core, doc: Document)
    requires cfg.Fits(doc)
    requires DiskOk(cfg, core.disk, core.hist) && MemOk(cfg, core.disk, core.mem)
    ensures Moved(cfg, core, Exec(cfg, core, Write(doc)), CurrentDocs(cfg, core)[doc.id := doc])
  {
    PutKeeps(cfg, core, doc);
  }

  lemma DocsWithout(cfg: Config, data: seq<byte>, index: Index, id: Id)
    ensures DocsOf(cfg, data, index - {id}) == DocsOf(cfg, data, index) - {id}
  {}

  lemma FewerPointers(cfg: Config, disk: Disk, mem: Mem, index: Index)
    requires MemOk(cfg, disk, mem)
    requires forall i :: i in index ==> i in mem.index && index[i] == mem.index[i]
    ensures MemOk(cfg, disk, mem.(index := index))
  {}

  lemma DropKeeps(cfg: Config, core: Core, id: Id)
    requires DiskOk(cfg, core.disk, core.hist) && MemOk(cfg, core.disk, core.mem)
    ensures Moved(cfg, core, core.(mem := core.mem.(index := core.mem.index - {id})), CurrentDocs(cfg, core) - {id})
  {
    FewerPointers(cfg, core.disk, core.mem, core.mem.index - {id});
    DocsWithout(cfg, core.disk.data, core.mem.index, id);
  }

  lemma ApplyKeeps(cfg: Config, core: Core, op: Op)
    requires OpFits(cfg, op)
    requires DiskOk(cfg, core.disk, core.hist) && MemOk(cfg, core.disk, core.mem)
    ensures Moved(cfg, core, Exec(cfg, core, Step.Apply(op)), Log.Apply(CurrentDocs(cfg, core), op))
  {
    match op
    case Insert(doc) => WriteKeeps(cfg, core, doc);
    case Update(doc) =>
      DropKeeps(cfg, core, doc.id);
      WriteKeeps(cfg, core.(mem := core.mem.(index := core.mem.index - {doc.id})), doc);
    case Delete(id) => DropKeeps(cfg, core, id);
  }

  lemma ReserveKeeps(cfg: Config, core: Core, n: nat)
    requires DiskOk(cfg, core.disk, core.hist) && MemOk(cfg, core.disk, core.mem)
    ensures var c := Exec(cfg, core, Step.Reserve(n));
            Moved(cfg, core, c, CurrentDocs(cfg, core))
  {
    var data := core.disk.data;
    var data' := RecordStore.Reserve(Store(data, core.mem.cursor), n).data;
    assert Exec(cfg, core, Step.Reserve(n)) == core.(disk := core.disk.(data := data'));
    GrownReads(cfg, data, data', core.mem.index);
    GrownReads(cfg, data, data', core.disk.saved);
    DiskWithData(cfg, core.disk, data', core.hist);
    MemWithData(cfg, core.disk, data', core.mem);
  }

  /** Only what the pointers read matters of the data file. */
  lemma DiskWithData(cfg: Config, disk: Disk, data: seq<byte>, hist: seq<Op>)
    requires DiskOk(cfg, disk, hist) && Readable(cfg, data, disk.saved)
    requires DocsOf(cfg, data, disk.saved) == DocsOf(cfg, disk.data, disk.saved)
    ensures DiskOk(cfg, disk.(data := data), hist)
  {}

  lemma MemWithData(cfg: Config, disk: Disk, data: seq<byte>, mem: Mem)
    requires MemOk(cfg, disk, mem) && Readable(cfg, data, mem.index)
    ensures MemOk(cfg, disk.(data := data), mem)
  {}

  /** A longer file reads the same through pointers that read something before. */
  lemma GrownReads(cfg: Config, data: seq<byte>, data': seq<byte>, index: Index)
    requires data <= data' && Readable(cfg, data, index)
    ensures Readable(cfg, data', index) && DocsOf(cfg, data', index) == DocsOf(cfg, data, index)
  {
    forall id | id in index ensures Read(data', index[id]) == Read(data, index[id]) {
      assert ReadDoc(cfg, data, index[id]).Some?;
      ExtensionKeeps(data, data', index[id]);
    }
    SameReads(cfg, data, data', index);
  }

  // ----- the steps of a checkpoint

  lemma EmptyLog(hist: seq<Op>)
    ensures Increasing([]) && IsSuffix(Ops([]), hist)
  {}

  /** Saved pointers that hold everything logged make any suffix of the log and any number right. */
  lemma SavedDiskOk(cfg: Config, disk: Disk, hist: seq<Op>)
    requires DocsOf(cfg, disk.data, disk.saved) == Current(hist)
    requires Readable(cfg, disk.data, disk.saved) && Disjoint(disk.saved)
    requires Increasing(disk.wal) && IsSuffix(Ops(disk.wal), hist) && forall op :: op in hist ==> OpFits(cfg, op)
    ensures DiskOk(cfg, disk, hist)
  {
    SavedSurvivesAnyNumber(cfg, disk, hist, disk.ckpt);
  }

  /** `c` is good and at least as far along as one allowed `step` from `core` promises. */
  ghost predicate Advanced(cfg: Config, core: Core, step: Step, c: Core) {
    && DiskOk(cfg, c.disk, c.hist) && MemOk(cfg, c.disk, c.mem)
    && CurrentDocs(cfg, c) == DocsAfter(step, CurrentDocs(cfg, core)) && c.hist == HistAfter(step, core.hist)
    && (SeqOkAfter(step, SeqOk(core.disk.wal, core.mem.nextSeq)) ==> SeqOk(c.disk.wal, c.mem.nextSeq))
    && (SavedAfter(step, Saved(cfg, core)) ==> Saved(cfg, c))
  }

  /** What is left to do is safe for a good state that is at least as far along as promised. */
  lemma GoodAndSafe(cfg: Config, core: Core, todo: seq<Step>, c: Core)
    requires todo != [] && Advanced(cfg, core, todo[0], c)
    requires Safe(cfg, todo, CurrentDocs(cfg, core), core.hist, SeqOk(core.disk.wal, core.mem.nextSeq),
                  Saved(cfg, core))
    ensures CoreOk(cfg, c, todo[1..])
  {
    var step := todo[0];
    SafeMonotone(cfg, todo[1..], CurrentDocs(cfg, c), c.hist,
                 SeqOkAfter(step, SeqOk(core.disk.wal, core.mem.nextSeq)), SavedAfter(step, Saved(cfg, core)),
                 SeqOk(c.disk.wal, c.mem.nextSeq), Saved(cfg, c));
  }

  ghost predicate Ready(cfg: Config, core: Core, step: Step) {
    && DiskOk(cfg, core.disk, core.hist) && MemOk(cfg, core.disk, core.mem)
    && Allowed(cfg, step, CurrentDocs(cfg, core), core.hist, SeqOk(core.disk.wal, core.mem.nextSeq), Saved(cfg, core))
  }

  /** The documents stay as they are when neither the file nor the pointers change. */
  lemma SameDocs(cfg: Config, core: Core, step: Step, c: Core)
    requires !step.Apply? && !step.Write?
    requires c.disk.data == core.disk.data && c.mem.index == core.mem.index
    ensures CurrentDocs(cfg, c) == DocsAfter(step, CurrentDocs(cfg, core))
  {
    assert DocsAfter(step, CurrentDocs(cfg, core)) == CurrentDocs(cfg, core);
  }

  /** A step that changes neither the file nor the live pointers advances as soon as it keeps the rest. */
  lemma UnmovedAdvances(cfg: Config, core: Core, step: Step, c: Core)
    requires !step.Apply? && !step.Write?
    requires DiskOk(cfg, c.disk, c.hist) && MemOk(cfg, c.disk, c.mem) && c.hist == HistAfter(step, core.hist)
    requires c.disk.data == core.disk.data && c.mem.index == core.mem.index
    requires SeqOkAfter(step, SeqOk(core.disk.wal, core.mem.nextSeq)) ==> SeqOk(c.disk.wal, c.mem.nextSeq)
    requires SavedAfter(step, Saved(cfg, core)) ==> Saved(cfg, c)
    ensures Advanced(cfg, core, step, c)
  {
    SameDocs(cfg, core, step, c);
  }

  lemma LogAdvances(cfg: Config, core: Core, op: Op)
    requires Ready(cfg, core, Step.Log(op))
    ensures Advanced(cfg, core, Step.Log(op), Exec(cfg, core, Step.Log(op)))
  {
    LogKeeps(cfg, core, op);
    MemWithLog(cfg, core.disk, core.mem, core.disk.wal + [Entry(core.mem.nextSeq, op)]);
    UnmovedAdvances(cfg, core, Step.Log(op), Exec(cfg, core, Step.Log(op)));
  }

  lemma MemWithLog(cfg: Config, disk: Disk, mem: Mem, wal: seq<Record>)
    requires MemOk(cfg, disk, mem)
    ensures MemOk(cfg, disk.(wal := wal), mem.(nextSeq := mem.nextSeq + 1))
  {}

  lemma MarkAdvances(cfg: Config, core: Core, c: Core)
    requires MemOk(cfg, core.disk, core.mem) && DiskOk(cfg, c.disk, c.hist)
    requires c.disk == core.disk.(wal := c.disk.wal) && c.mem == core.mem.(nextSeq := core.mem.nextSeq + 1)
    requires c.hist == core.hist && (SeqOk(core.disk.wal, core.mem.nextSeq) ==> SeqOk(c.disk.wal, c.mem.nextSeq))
    ensures Advanced(cfg, core, LogMark, c)
  {
    MemWithLog(cfg, core.disk, core.mem, c.disk.wal);
    UnmovedAdvances(cfg, core, LogMark, c);
  }

  lemma MovedAdvances(cfg: Config, core: Core, step: Step, c: Core)
    requires step.Apply? || step.Write? || step.Reserve?
    requires Moved(cfg, core, c, DocsAfter(step, CurrentDocs(cfg, core)))
    ensures Advanced(cfg, core, step, c)
  {}

  lemma DataAdvances(cfg: Config, core: Core, step: Step)
    requires (step.Apply? || step.Write? || step.Reserve?) && Ready(cfg, core, step)
    ensures Advanced(cfg, core, step, Exec(cfg, core, step))
  {
    match step {
      case Apply(op) => ApplyKeeps(cfg, core, op);
      case Write(doc) => WriteKeeps(cfg, core, doc);
      case Reserve(n) => ReserveKeeps(cfg, core, n);
    }
    MovedAdvances(cfg, core, step, Exec(cfg, core, step));
  }

  lemma SaveIndexAdvances(cfg: Config, core: Core, c: Core)
    requires DiskOk(cfg, core.disk, core.hist) && MemOk(cfg, core.disk, core.mem)
    requires DocsOf(cfg, core.disk.data, core.mem.index) == Current(core.hist)
    requires c.disk.data == core.disk.data && c.disk.wal == core.disk.wal && c.disk.ckpt == core.disk.ckpt
    requires c.disk.saved == core.mem.index && c.mem == core.mem && c.hist == core.hist
    ensures Advanced(cfg, core, SaveIndex, c)
  {
    SavedDiskOk(cfg, c.disk, c.hist);
    UnmovedAdvances(cfg, core, SaveIndex, c);
  }

  lemma SaveSeqAdvances(cfg: Config, core: Core, c: Core)
    requires DiskOk(cfg, core.disk, core.hist) && MemOk(cfg, core.disk, core.mem)
    requires DocsOf(cfg, core.disk.data, core.disk.saved) == Current(core.hist)
    requires c.disk.data == core.disk.data && c.disk.wal == core.disk.wal && c.disk.saved == core.disk.saved
    requires c.disk.ckpt == core.mem.nextSeq - 1 && c.mem == core.mem && c.hist == core.hist
    ensures Advanced(cfg, core, SaveSeq, c)
  {
    SavedDiskOk(cfg, c.disk, c.hist);
    UnmovedAdvances(cfg, core, SaveSeq, c);
  }

  lemma RotateAdvances(cfg: Config, core: Core, c: Core)
    requires DiskOk(cfg, core.disk, core.hist) && MemOk(cfg, core.disk, core.mem)
    requires DocsOf(cfg, core.disk.data, core.disk.saved) == Current(core.hist)
    requires c.disk.data == core.disk.data && c.disk.saved == core.disk.saved && c.disk.ckpt == core.disk.ckpt
    requires c.disk.wal == [] && c.mem == core.mem && c.hist == core.hist
    ensures Advanced(cfg, core, Rotate, c)
  {
    EmptyLog(c.hist);
    SavedDiskOk(cfg, c.disk, c.hist);
    UnmovedAdvances(cfg, core, Rotate, c);
  }

  lemma CompactAdvances(cfg: Config, core: Core, order: seq<Id>)
    requires Ready(cfg, core, Step.Compact(order))
    ensures Advanced(cfg, core, Step.Compact(order), Compacted(cfg, core, order))
  {
    assert CurrentDocs(cfg, core).Keys == core.mem.index.Keys;
    CompactKeeps(cfg, core, order);
  }

  /** The list of ids in memory and the saved one play no part. */
  lemma IdsAdvance(cfg: Config, core: Core, step: Step, c: Core)
    requires step.IndexId? || step.SaveIds? || step.RebuildIds?
    requires DiskOk(cfg, core.disk, core.hist) && MemOk(cfg, core.disk, core.mem)
    requires c.disk == core.disk.(savedIds := c.disk.savedIds) && c.mem == core.mem.(ids := c.mem.ids)
    requires c.hist == core.hist
    ensures Advanced(cfg, core, step, c)
  {
    DiskWithIds(cfg, core.disk, c.disk.savedIds, core.hist);
    UnmovedAdvances(cfg, core, step, c);
  }

  lemma DiskWithIds(cfg: Config, disk: Disk, ids: Option<set<Id>>, hist: seq<Op>)
    requires DiskOk(cfg, disk, hist)
    ensures DiskOk(cfg, disk.(savedIds := ids), hist)
  {}

  /** Every allowed step from a good state reaches a good state. */
  lemma StepAdvances(cfg: Config, core: Core, step: Step)
    requires Ready(cfg, core, step)
    ensures Advanced(cfg, core, step, Exec(cfg, core, step))
  {
    match step
    case Log(op) => LogAdvances(cfg, core, op);
    case LogMark =>
      MarkKeeps(cfg, core);
      MarkAdvances(cfg, core, Exec(cfg, core, LogMark));
    case Apply(_) => DataAdvances(cfg, core, step);
    case Write(_) => DataAdvances(cfg, core, step);
    case Reserve(_) => DataAdvances(cfg, core, step);
    case SaveIndex => SaveIndexAdvances(cfg, core, Exec(cfg, core, SaveIndex));
    case SaveSeq => SaveSeqAdvances(cfg, core, Exec(cfg, core, SaveSeq));
    case Rotate => RotateAdvances(cfg, core, Exec(cfg, core, Rotate));
    case Compact(order) => CompactAdvances(cfg, core, order);
    case IndexId(id) => IdsAdvance(cfg, core, step, Exec(cfg, core, IndexId(id)));
    case SaveIds => IdsAdvance(cfg, core, step, Exec(cfg, core, SaveIds));
    case RebuildIds => IdsAdvance(cfg, core, step, Exec(cfg, core, RebuildIds));
  }

  lemma StepKeeps(cfg: Config, core: Core, todo: seq<Step>)
    requires todo != [] && CoreOk(cfg, core, todo)
    ensures CoreOk(cfg, Exec(cfg, core, todo[0]), todo[1..])
  {
    StepAdvances(cfg, core, todo[0]);
    GoodAndSafe(cfg, core, todo, Exec(cfg, core, todo[0]));
  }

  lemma {:induction false} RunKeeps(cfg: Config, core: Core, todo: seq<Step>)
    requires CoreOk(cfg, core, todo)
    ensures CoreOk(cfg, Run(cfg, core, todo), [])
    decreases |todo|
  {
    if todo != [] {
      StepKeeps(cfg, core, todo);
      RunKeeps(cfg, Exec(cfg, core, todo[0]), todo[1..]);
    }
  }

  // ----- programs

  lemma SafeCons(cfg: Config, step: Step, rest: seq<Step>, docs: Docs, hist: seq<Op>, ok: bool, saved: bool)
    requires Allowed(cfg, step, docs, hist, ok, saved)
    requires Safe(cfg, rest, DocsAfter(step, docs), HistAfter(step, hist), SeqOkAfter(step, ok),
                  SavedAfter(step, saved))
    ensures Safe(cfg, [step] + rest, docs, hist, ok, saved)
  {
    assert ([step] + rest)[1..] == rest;
  }

  lemma {:induction false} SafeLogs(cfg: Config, ops: seq<Op>, rest: seq<Step>, docs: Docs, hist: seq<Op>, saved: bool)
    requires forall op :: op in ops ==> OpFits(cfg, op)
    requires Safe(cfg, rest, docs, hist + ops, true, false)
    ensures Safe(cfg, Logs(ops) + rest, docs, hist, true, saved)
    decreases |ops|
  {
    if ops == [] {
      assert Logs(ops) + rest == rest && hist + ops == hist;
      SafeMonotone(cfg, rest, docs, hist, true, false, true, saved);
    } else {
      assert (Logs(ops) + rest)[1..] == Logs(ops[1..]) + rest;
      assert hist + [ops[0]] + ops[1..] == hist + ops;
      SafeLogs(cfg, ops[1..], rest, docs, hist + [ops[0]], false);
    }
  }

  lemma {:induction false} SafeApplies(cfg: Config, ops: seq<Op>, rest: seq<Step>, docs: Docs, hist: seq<Op>, ok: bool,
                                       saved: bool)
    requires forall op :: op in ops ==> OpFits(cfg, op)
    requires Safe(cfg, rest, ApplyAll(ops, docs), hist, ok, saved)
    ensures Safe(cfg, Applies(ops) + rest, docs, hist, ok, saved)
    decreases |ops|
  {
    if ops == [] {
      assert Applies(ops) + rest == rest;
    } else {
      assert (Applies(ops) + rest)[1..] == Applies(ops[1..]) + rest;
      SafeApplies(cfg, ops[1..], rest, Log.Apply(docs, ops[0]), hist, ok, saved);
    }
  }

  lemma {:induction false} SafeWrites(cfg: Config, batch: seq<Document>, rest: seq<Step>, docs: Docs, hist: seq<Op>,
                                      saved: bool)
    requires forall op :: op in Inserts(batch) ==> OpFits(cfg, op)
    requires Safe(cfg, rest, ApplyAll(Inserts(batch), docs), hist, true, saved)
    ensures Safe(cfg, Writes(batch) + rest, docs, hist, true, saved)
    decreases |batch|
  {
    if batch == [] {
      assert Writes(batch) + rest == rest;
    } else {
      assert (Writes(batch) + rest)[1..] == Writes(batch[1..]) + rest;
      assert Inserts(batch)[1..] == Inserts(batch[1..]);
      assert Inserts(batch)[0] in Inserts(batch);
      SafeWrites(cfg, batch[1..], rest, docs[batch[0].id := batch[0]], hist, saved);
    }
  }

  lemma {:induction false} SafeIndexIds(cfg: Config, batch: seq<Document>, docs: Docs, hist: seq<Op>, saved: bool)
    requires docs == Current(hist)
    ensures Safe(cfg, IndexIds(batch), docs, hist, true, saved)
    decreases |batch|
  {
    if batch != [] {
      assert IndexIds(batch)[1..] == IndexIds(batch[1..]);
      SafeIndexIds(cfg, batch[1..], docs, hist, saved);
    }
  }

  lemma SafeCheckpoint(cfg: Config, due: bool, rest: seq<Step>, docs: Docs, hist: seq<Op>, ok: bool)
    requires docs == Current(hist) && (due || ok) && Safe(cfg, rest, docs, hist, true, false)
    ensures Safe(cfg, CheckpointIf(due) + rest, docs, hist, ok, false)
  {
    if due {
      SafeMonotone(cfg, rest, docs, hist, true, false, true, true);
      var t4 := [Rotate] + rest;
      SafeCons(cfg, Rotate, rest, docs, hist, ok, true);
      var t3 := [SaveSeq] + t4;
      SafeCons(cfg, SaveSeq, t4, docs, hist, ok, true);
      var t2 := [LogMark] + t3;
      SafeCons(cfg, LogMark, t3, docs, hist, ok, true);
      SafeCons(cfg, SaveIds, t2, docs, hist, ok, true);
      SafeCons(cfg, SaveIndex, [SaveIds] + t2, docs, hist, ok, false);
      CheckpointIs(rest);
    } else {
      assert CheckpointIf(due) + rest == rest;
    }
  }

  function IdSet(ids: seq<Id>): set<Id> { set id | id in ids }

  lemma DeletesAgree(ids: seq<Id>, keys: set<Id>, docs: Docs)
    ensures docs.Keys <= keys ==> ApplyAll(DeletesLogged(ids, keys), docs) == docs - IdSet(ids)
    ensures docs.Keys == keys ==> ApplyAll(DeletesApplied(ids, keys), docs) == docs - IdSet(ids)
    ensures DeletesApplied(ids, keys) == [] ==> DeletesLogged(ids, keys) == []
  {
    if docs.Keys <= keys { LoggedDeletes(ids, keys, docs); }
    if docs.Keys == keys { AppliedDeletes(ids, keys, docs); }
    NothingDeleted(ids, keys);
  }

  lemma FirstDeleted(ids: seq<Id>, docs: Docs)
    requires ids != []
    ensures docs - {ids[0]} - IdSet(ids[1..]) == docs - IdSet(ids)
    ensures ids[0] !in docs ==> docs - IdSet(ids[1..]) == docs - IdSet(ids) && docs - {ids[0]} == docs
  {
    assert IdSet(ids) == {ids[0]} + IdSet(ids[1..]);
  }

  lemma {:induction false} LoggedDeletes(ids: seq<Id>, keys: set<Id>, docs: Docs)
    requires docs.Keys <= keys
    ensures ApplyAll(DeletesLogged(ids, keys), docs) == docs - IdSet(ids)
    decreases |ids|
  {
    if ids != [] {
      FirstDeleted(ids, docs);
      LoggedDeletes(ids[1..], keys, docs - {ids[0]});
      if ids[0] in keys {
        assert DeletesLogged(ids, keys)[1..] == DeletesLogged(ids[1..], keys);
      } else {
        assert DeletesLogged(ids, keys) == DeletesLogged(ids[1..], keys);
      }
    }
  }

  lemma {:induction false} AppliedDeletes(ids: seq<Id>, keys: set<Id>, docs: Docs)
    requires docs.Keys == keys
    ensures ApplyAll(DeletesApplied(ids, keys), docs) == docs - IdSet(ids)
    decreases |ids|
  {
    if ids != [] {
      FirstDeleted(ids, docs);
      if ids[0] in keys {
        AppliedDeletes(ids[1..], keys - {ids[0]}, docs - {ids[0]});
        assert DeletesApplied(ids, keys)[1..] == DeletesApplied(ids[1..], keys - {ids[0]});
      } else {
        AppliedDeletes(ids[1..], keys, docs);
      }
    }
  }

  lemma {:induction false} NothingDeleted(ids: seq<Id>, keys: set<Id>)
    ensures DeletesApplied(ids, keys) == [] ==> DeletesLogged(ids, keys) == []
    decreases |ids|
  {
    if ids != [] && ids[0] !in keys { NothingDeleted(ids[1..], keys); }
  }

  lemma BatchIsSafe(cfg: Config, core: Core, batch: seq<Document>, due: bool)
    requires CoreOk(cfg, core, []) && forall op :: op in Inserts(batch) ==> OpFits(cfg, op)
    ensures CoreOk(cfg, core, Program(cfg, Call.InsertBatch(batch), core, due))
  {
    var docs, ops, hist := CurrentDocs(cfg, core), Inserts(batch), core.hist;
    ApplyAppend(hist, ops, map[]);
    var tail := CheckpointIf(due) + IndexIds(batch);
    SafeIndexIds(cfg, batch, ApplyAll(ops, docs), hist + ops, false);
    SafeCheckpoint(cfg, due, IndexIds(batch), ApplyAll(ops, docs), hist + ops, true);
    SafeWrites(cfg, batch, tail, docs, hist + ops, false);
    var reserve := Step.Reserve(TotalBytes(Encodings(cfg, batch)));
    assert ([reserve] + (Writes(batch) + tail))[1..] == Writes(batch) + tail;
    SafeLogs(cfg, ops, [reserve] + (Writes(batch) + tail), docs, hist, Saved(cfg, core));
  }

  /** Log some operations, apply operations of the same effect, and checkpoint if that is due. */
  lemma LogApplyIsSafe(cfg: Config, core: Core, ops: seq<Op>, applied: seq<Op>, due: bool)
    requires CoreOk(cfg, core, [])
    requires forall op :: op in ops || op in applied ==> OpFits(cfg, op)
    requires ApplyAll(applied, CurrentDocs(cfg, core)) == ApplyAll(ops, CurrentDocs(cfg, core))
    ensures CoreOk(cfg, core, Logs(ops) + (Applies(applied) + CheckpointIf(due)))
  {
    var docs, hist := CurrentDocs(cfg, core), core.hist;
    ApplyAppend(hist, ops, map[]);
    SafeCheckpoint(cfg, due, [], ApplyAll(ops, docs), hist + ops, true);
    assert CheckpointIf(due) + [] == CheckpointIf(due);
    SafeApplies(cfg, applied, CheckpointIf(due), docs, hist + ops, true, false);
    SafeLogs(cfg, ops, Applies(applied) + CheckpointIf(due), docs, hist, Saved(cfg, core));
  }

  lemma {:induction false} DeletesFit(cfg: Config, ids: seq<Id>, keys: set<Id>)
    ensures forall op :: op in DeletesLogged(ids, keys) || op in DeletesApplied(ids, keys) ==> OpFits(cfg, op)
  {
    if ids != [] {
      DeletesFit(cfg, ids[1..], keys);
      DeletesFit(cfg, ids[1..], keys - {ids[0]});
    }
  }

  lemma CallFits(cfg: Config, call: Call, core: Core)
    requires CallOk(cfg, call, core)
    ensures forall op :: op in CallOps(cfg, call, core) ==> OpFits(cfg, op)
  {
    if call.DeleteBatch? { DeletesFit(cfg, call.ids, core.mem.index.Keys); }
  }

  lemma MetadataUpdateIsSafe(cfg: Config, core: Core, id: Id, metadata: Metadata, due: bool)
    requires CoreOk(cfg, core, []) && CallOk(cfg, Call.UpdateMetadata(id, metadata), core)
    ensures CoreOk(cfg, core, Program(cfg, Call.UpdateMetadata(id, metadata), core, due))
  {
    var docs, hist := CurrentDocs(cfg, core), core.hist;
    var ops := CallOps(cfg, Call.UpdateMetadata(id, metadata), core);
    if ops != [] {
      var doc := docs[id].(metadata := metadata);
      ApplySnoc(hist, Op.Update(doc), map[]);
      assert (docs - {doc.id})[doc.id := doc] == docs[doc.id := doc];
      SafeCheckpoint(cfg, due, [], docs[doc.id := doc], hist + ops, true);
      assert CheckpointIf(due) + [] == CheckpointIf(due);
      SafeCons(cfg, Write(doc), CheckpointIf(due), docs, hist + ops, true, false);
      SafeLogs(cfg, ops, [Write(doc)] + CheckpointIf(due), docs, hist, Saved(cfg, core));
    }
  }

  lemma DeleteBatchIsSafe(cfg: Config, core: Core, ids: seq<Id>, due: bool)
    requires CoreOk(cfg, core, [])
    ensures CoreOk(cfg, core, Program(cfg, Call.DeleteBatch(ids), core, due))
  {
    var docs := CurrentDocs(cfg, core);
    assert docs.Keys == core.mem.index.Keys;
    var logged, applied := DeletesLogged(ids, docs.Keys), DeletesApplied(ids, docs.Keys);
    DeletesAgree(ids, docs.Keys, docs);
    DeletesFit(cfg, ids, docs.Keys);
    LogApplyIsSafe(cfg, core, logged, applied, due && applied != []);
  }

  /** The calls that log at most one operation and then apply it. */
  lemma OneWriteIsSafe(cfg: Config, call: Call, core: Core, due: bool)
    requires call.Insert? || call.Upsert? || call.Delete? || call.UpdateVector?
    requires CoreOk(cfg, core, []) && CallOk(cfg, call, core)
    ensures CoreOk(cfg, core, Program(cfg, call, core, due))
  {
    var ops := CallOps(cfg, call, core);
    assert CurrentDocs(cfg, core).Keys == core.mem.index.Keys;
    CallFits(cfg, call, core);
    LogApplyIsSafe(cfg, core, ops, ops, due);
  }

  lemma CheckpointIsSafe(cfg: Config, core: Core, due: bool)
    requires CoreOk(cfg, core, [])
    ensures CoreOk(cfg, core, Program(cfg, Call.Checkpoint, core, due))
  {
    var docs := CurrentDocs(cfg, core);
    SafeCheckpoint(cfg, true, [], docs, core.hist, true);
    assert CheckpointIf(true) + [] == CHECKPOINT;
    SafeMonotone(cfg, CHECKPOINT, docs, core.hist, true, false, true, Saved(cfg, core));
  }

  /** `compact` and `rebuild_index` are one step each. */
  lemma OneStepIsSafe(cfg: Config, call: Call, core: Core, due: bool)
    requires (call.Compact? || call.RebuildIndex?) && CoreOk(cfg, core, []) && CallOk(cfg, call, core)
    ensures CoreOk(cfg, core, Program(cfg, call, core, due))
  {
    var step := Program(cfg, call, core, due)[0];
    assert CurrentDocs(cfg, core).Keys == core.mem.index.Keys;
    assert Program(cfg, call, core, due) == [step] && [step][1..] == [];
  }

  /** From an idle state that holds the logged operations, every public call is safe to start. */
  lemma ProgramIsSafe(cfg: Config, call: Call, core: Core, due: bool)
    requires CoreOk(cfg, core, []) && CallOk(cfg, call, core)
    ensures CoreOk(cfg, core, Program(cfg, call, core, due))
  {
    match call {
      case InsertBatch(batch) =>
        CallFits(cfg, call, core);
        BatchIsSafe(cfg, core, batch, due);
      case DeleteBatch(ids) => DeleteBatchIsSafe(cfg, core, ids, due);
      case UpdateMetadata(id, metadata) => MetadataUpdateIsSafe(cfg, core, id, metadata, due);
      case Checkpoint => CheckpointIsSafe(cfg, core, due);
      case Compact(_) => OneStepIsSafe(cfg, call, core, due);
      case RebuildIndex => OneStepIsSafe(cfg, call, core, due);
      case _ => OneWriteIsSafe(cfg, call, core, due);
    }
  }

  /** What `open` loads, and the recovery it then runs, are safe from any disk a crash can leave. */
  lemma LoadIsSafe(cfg: Config, disk: Disk, hist: seq<Op>)
    requires DiskOk(cfg, disk, hist)
    ensures CoreOk(cfg, Load(cfg, disk, hist), RecoverySteps(disk))
  {
    var core := Load(cfg, disk, hist);
    var ops := Live(disk.wal, disk.ckpt);
    forall id | id in disk.saved ensures Read(core.disk.data, disk.saved[id]) == Read(disk.data, disk.saved[id]) {
      ExtensionKeeps(disk.data, core.disk.data, disk.saved[id]);
    }
    SameReads(cfg, disk.data, core.disk.data, disk.saved);
    var docs := CurrentDocs(cfg, core);
    if Above(disk.wal, disk.ckpt) == [] {
      NothingAbove(disk.wal, disk.ckpt);
    } else {
      LiveIsSuffix(disk.wal, disk.ckpt);
      SuffixTransitive(ops, Ops(disk.wal), hist);
      forall op | op in ops ensures OpFits(cfg, op) { assert op in hist; }
      SafeCheckpoint(cfg, true, [], Current(hist), hist, SeqOk(disk.wal, core.mem.nextSeq));
      assert CheckpointIf(true) + [] == CHECKPOINT;
      SafeApplies(cfg, ops, CHECKPOINT, docs, hist, SeqOk(disk.wal, core.mem.nextSeq), false);
      SafeMonotone(cfg, RecoverySteps(disk), docs, hist, SeqOk(disk.wal, core.mem.nextSeq), false,
                   SeqOk(disk.wal, core.mem.nextSeq), Saved(cfg, core));
    }
  }

  // ----- what a program logs

  function Logged(steps: seq<Step>): seq<Op> {
    if steps == [] then [] else LoggedBy(steps[0]) + Logged(steps[1..])
  }

  lemma {:induction false} LoggedNothing(steps: seq<Step>)
    requires forall i :: 0 <= i < |steps| ==> !steps[i].Log?
    ensures Logged(steps) == []
  {
    if steps != [] { LoggedNothing(steps[1..]); }
  }

  lemma {:induction false} LoggedLogs(ops: seq<Op>, rest: seq<Step>)
    requires forall i :: 0 <= i < |rest| ==> !rest[i].Log?
    ensures Logged(Logs(ops) + rest) == ops
    decreases |ops|
  {
    if ops == [] {
      assert Logs(ops) + rest == rest;
      LoggedNothing(rest);
    } else {
      assert (Logs(ops) + rest)[1..] == Logs(ops[1..]) + rest;
      LoggedLogs(ops[1..], rest);
    }
  }

  function LoggedBy(step: Step): seq<Op> { if step.Log? then [step.op] else [] }

  lemma ExecHist(cfg: Config, core: Core, step: Step)
    ensures Exec(cfg, core, step).hist == core.hist + LoggedBy(step)
  {
    if !step.Log? { assert core.hist + [] == core.hist; }
  }

  lemma {:induction false} RunHist(cfg: Config, core: Core, steps: seq<Step>)
    ensures Run(cfg, core, steps).hist == core.hist + Logged(steps)
    decreases |steps|
  {
    if steps == [] {
      assert core.hist + [] == core.hist;
    } else {
      var step, rest := steps[0], steps[1..];
      var c := Exec(cfg, core, step);
      ExecHist(cfg, core, step);
      RunHist(cfg, c, rest);
      assert c.hist + Logged(rest) == core.hist + (LoggedBy(step) + Logged(rest));
    }
  }

  lemma RecoveryLogsNothing(disk: Disk)
    ensures Logged(RecoverySteps(disk)) == []
  {
    LoggedNothing(RecoverySteps(disk));
  }

  // ----- runs

  /** Bytes beyond the cursor are not read by any pointer, so a crash may leave them as it likes. */
  lemma TornReads(cfg: Config, data: seq<byte>, torn: seq<byte>, index: Index, cursor: nat)
    requires Readable(cfg, data, index) && Below(index, cursor) && Torn(data, cursor, torn)
    ensures Readable(cfg, torn, index) && DocsOf(cfg, torn, index) == DocsOf(cfg, data, index)
  {
    forall id | id in index ensures Read(torn, index[id]) == Read(data, index[id]) {
      assert ReadDoc(cfg, data, index[id]).Some?;
      var p := index[id];
      assert torn[p.offset..p.End()] == data[p.offset..p.End()];
    }
    SameReads(cfg, data, torn, index);
  }

  lemma CrashKeeps(cfg: Config, s: State, disk: Disk)
    requires StateOk(cfg, s) && Leaves(s, disk)
    ensures DiskOk(cfg, disk, HistAt(s))
  {
    if s.Up? {
      TornReads(cfg, s.core.disk.data, disk.data, s.core.disk.saved, s.core.mem.cursor);
      DiskWithData(cfg, s.core.disk, disk.data, s.core.hist);
    }
  }

  lemma NextKeeps(cfg: Config, s: State, t: State)
    requires StateOk(cfg, s) && Next(cfg, s, t)
    ensures StateOk(cfg, t)
  {
    if s.Down? {
      LoadIsSafe(cfg, s.disk, s.hist);
    } else if t.Up? {
      if s.todo != [] && t == Up(Exec(cfg, s.core, s.todo[0]), s.todo[1..]) {
        StepKeeps(cfg, s.core, s.todo);
      } else {
        var call, due :| Start(cfg, s, t, call, due);
        ProgramIsSafe(cfg, call, s.core, due);
      }
    } else {
      CrashKeeps(cfg, s, t.disk);
    }
  }

  lemma {:induction false} EveryRunIsOk(cfg: Config, run: seq<State>, i: nat)
    requires IsRun(cfg, run) && i < |run|
    ensures StateOk(cfg, run[i])
  {
    if i > 0 {
      EveryRunIsOk(cfg, run, i - 1);
      NextKeeps(cfg, run[i - 1], run[i]);
    }
  }

  function HistAt(s: State): seq<Op> { if s.Up? then s.core.hist else s.hist }

  /**
   * The durability theorem.  At every point of every run - between any two disk writes, inside a checkpoint,
   * halfway through the bytes of a record, inside a recovery that was itself interrupted - a crash followed by
   * `open` yields exactly the documents given by applying all logged operations in order; and so does every idle
   * state.
   */
  lemma CrashAnywhereLosesNothing(cfg: Config, run: seq<State>, i: nat, disk: Disk)
    requires IsRun(cfg, run) && i < |run| && Leaves(run[i], disk)
    ensures CurrentDocs(cfg, Reopen(cfg, disk, HistAt(run[i]))) == Current(HistAt(run[i]))
    ensures run[i].Up? && run[i].todo == [] ==> CurrentDocs(cfg, run[i].core) == Current(run[i].core.hist)
  {
    EveryRunIsOk(cfg, run, i);
    CrashKeeps(cfg, run[i], disk);
    ReopenHolds(cfg, disk, HistAt(run[i]));
  }

  /** Recovery ends idle, holds every logged operation, and has logged no operation of its own. */
  lemma ReopenHolds(cfg: Config, disk: Disk, hist: seq<Op>)
    requires DiskOk(cfg, disk, hist)
    ensures var c := Reopen(cfg, disk, hist);
            CoreOk(cfg, c, []) && c.hist == hist && CurrentDocs(cfg, c) == Current(hist)
  {
    var core, steps := Load(cfg, disk, hist), RecoverySteps(disk);
    LoadIsSafe(cfg, disk, hist);
    RunKeeps(cfg, core, steps);
    RunHist(cfg, core, steps);
    RecoveryLogsNothing(disk);
    assert hist + [] == hist;
  }

  lemma {:induction false} RunAppend(cfg: Config, core: Core, a: seq<Step>, b: seq<Step>)
    ensures Run(cfg, core, a + b) == Run(cfg, Run(cfg, core, a), b)
    decreases |a|
  {
    if a == [] {
      assert a + b == b;
    } else {
      assert (a + b)[1..] == a[1..] + b;
      RunAppend(cfg, Exec(cfg, core, a[0]), a[1..], b);
    }
  }

  /** A whole checkpoint: both indexes saved, the number of the mark recorded, the log emptied. */
  lemma RunCheckpoint(cfg: Config, core: Core)
    ensures var c := Run(cfg, core, CHECKPOINT);
            && c.disk.saved == core.mem.index && c.disk.savedIds == Some(core.mem.ids)
            && c.disk.wal == [] && c.disk.ckpt == core.mem.nextSeq && c.mem.nextSeq == core.mem.nextSeq + 1
            && c.disk.data == core.disk.data && c.mem == core.mem.(nextSeq := core.mem.nextSeq + 1)
            && c.hist == core.hist
  {
    var disk, mem := core.disk, core.mem;
    var t4 := [Rotate] + [];
    var t3 := [SaveSeq] + t4;
    var t2 := [LogMark] + t3;
    var t1 := [SaveIds] + t2;
    var c1 := RunCons(cfg, core, SaveIndex, t1);
    assert c1 == core.(disk := disk.(saved := mem.index));
    var c2 := RunCons(cfg, c1, SaveIds, t2);
    assert c2 == core.(disk := disk.(saved := mem.index, savedIds := Some(mem.ids)));
    var c3 := RunCons(cfg, c2, LogMark, t3);
    assert c3.disk == c2.disk.(wal := disk.wal + [Mark(mem.nextSeq)]);
    assert c3.mem == mem.(nextSeq := mem.nextSeq + 1) && c3.hist == core.hist;
    var c4 := RunCons(cfg, c3, SaveSeq, t4);
    assert c4 == c3.(disk := c3.disk.(ckpt := mem.nextSeq));
    var c5 := RunCons(cfg, c4, Rotate, []);
    CheckpointIs([]);
    assert CHECKPOINT + [] == CHECKPOINT;
  }

  lemma CheckpointIs(rest: seq<Step>)
    ensures CHECKPOINT + rest == [SaveIndex] + ([SaveIds] + ([LogMark] + ([SaveSeq] + ([Rotate] + rest))))
  {}

  lemma RunCons(cfg: Config, core: Core, step: Step, rest: seq<Step>) returns (c: Core)
    ensures c == Exec(cfg, core, step) && Run(cfg, core, [step] + rest) == Run(cfg, c, rest)
  {
    c := Exec(cfg, core, step);
    assert ([step] + rest)[1..] == rest;
  }

  // ----- sequence numbers

  /**
   * After every open nothing in the log lies above the saved number, and the next record does, although
   * recovery starts again at the saved number plus one and reuses numbers still in the file.
   */
  lemma OpenLeavesNothingToReplay(cfg: Config, disk: Disk, hist: seq<Op>)
    ensures var c := Reopen(cfg, disk, hist);
            Above(c.disk.wal, c.disk.ckpt) == [] && c.mem.nextSeq == c.disk.ckpt + 1
  {
    var core := Load(cfg, disk, hist);
    if Above(disk.wal, disk.ckpt) != [] {
      var applies := Applies(Live(disk.wal, disk.ckpt));
      RunAppend(cfg, core, applies, CHECKPOINT);
      RunCheckpoint(cfg, Run(cfg, core, applies));
    }
  }

  /**
   * In every run, every operation logged gets a number above the saved one and above all earlier ones: replay never
   * skips it.
   */
  lemma NoLoggedWriteIsSkipped(cfg: Config, run: seq<State>, i: nat)
    requires IsRun(cfg, run) && i < |run|
    requires run[i].Up? && run[i].todo != [] && run[i].todo[0].Log?
    ensures var core, op := run[i].core, run[i].todo[0].op;
            var wal, ckpt := Exec(cfg, core, run[i].todo[0]).disk.wal, core.disk.ckpt;
            && core.mem.nextSeq > ckpt
            && (forall r :: r in core.disk.wal && r.Entry? ==> r.num < core.mem.nextSeq)
            && Live(wal, ckpt) == Live(core.disk.wal, ckpt) + [op]
  {
    EveryRunIsOk(cfg, run, i);
    LogOne(run[i].core.disk.wal, Entry(run[i].core.mem.nextSeq, run[i].todo[0].op), run[i].core.disk.ckpt);
  }

  // ----- what the calls mean

  /** A call that runs to its end leaves exactly its own operations applied to the documents before it. */
  lemma CallMeaning(cfg: Config, call: Call, core: Core, due: bool)
    requires CoreOk(cfg, core, []) && CallOk(cfg, call, core)
    ensures var c := Run(cfg, core, Program(cfg, call, core, due));
            && CoreOk(cfg, c, []) && c.hist == core.hist + CallOps(cfg, call, core)
            && CurrentDocs(cfg, c) == ApplyAll(CallOps(cfg, call, core), CurrentDocs(cfg, core))
  {
    var program, ops := Program(cfg, call, core, due), CallOps(cfg, call, core);
    ProgramIsSafe(cfg, call, core, due);
    RunKeeps(cfg, core, program);
    RunHist(cfg, core, program);
    ProgramLogs(cfg, call, core, due);
    ApplyAppend(core.hist, ops, map[]);
  }

  lemma ProgramLogs(cfg: Config, call: Call, core: Core, due: bool)
    ensures Logged(Program(cfg, call, core, due)) == CallOps(cfg, call, core)
  {
    var ops := CallOps(cfg, call, core);
    match call {
      case InsertBatch(docs) =>
        LoggedLogs(ops, [Step.Reserve(TotalBytes(Encodings(cfg, docs)))]
                        + (Writes(docs) + (CheckpointIf(due) + IndexIds(docs))));
      case DeleteBatch(ids) =>
        var applied := DeletesApplied(ids, core.mem.index.Keys);
        LoggedLogs(ops, Applies(applied) + CheckpointIf(due && applied != []));
      case UpdateMetadata(_, _) => if ops != [] { LoggedLogs(ops, [Write(ops[0].doc)] + CheckpointIf(due)); }
      case Checkpoint => LoggedNothing(CHECKPOINT);
      case Compact(order) => LoggedNothing([Step.Compact(order)]);
      case RebuildIndex => LoggedNothing([RebuildIds]);
      case _ => if ops != [] { LoggedLogs(ops, Applies(ops) + CheckpointIf(due)); }
    }
  }

  /** `delete_batch` removes the listed ids and nothing else, repeats and unknown ids included. */
  lemma DeleteBatchMeaning(cfg: Config, core: Core, ids: seq<Id>, due: bool)
    requires CoreOk(cfg, core, [])
    ensures CurrentDocs(cfg, Run(cfg, core, Program(cfg, Call.DeleteBatch(ids), core, due)))
      == CurrentDocs(cfg, core) - IdSet(ids)
  {
    var docs := CurrentDocs(cfg, core);
    assert docs.Keys == core.mem.index.Keys;
    DeletesFit(cfg, ids, docs.Keys);
    CallMeaning(cfg, Call.DeleteBatch(ids), core, due);
    DeletesAgree(ids, docs.Keys, docs);
  }
}
