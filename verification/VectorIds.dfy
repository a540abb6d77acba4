/**
 * The persisted vector index (Flat: the list of ids) along the same runs.  It stays in step with the
 * documents across crashes except for one call: a batch insert that checkpoints halfway.
 */
module VectorIds {
  import opened Types
  import opened RecordStore
  import opened Log
  import opened Recovery
  import opened CrashSafety
  import opened CrashTheorem

  function IdsAfter(ids: set<Id>, op: Op): set<Id> {
    if op.Delete? then ids - {op.id} else ids + {op.doc.id}
  }

  function IdsAll(ops: seq<Op>, ids: set<Id>): set<Id> {
    if ops == [] then ids else IdsAll(ops[1..], IdsAfter(ids, ops[0]))
  }

  lemma {:induction false} IdsAreKeys(ops: seq<Op>, docs: Docs)
    ensures IdsAll(ops, docs.Keys) == ApplyAll(ops, docs).Keys
  {
    if ops != [] {
      assert IdsAfter(docs.Keys, ops[0]) == Log.Apply(docs, ops[0]).Keys;
      IdsAreKeys(ops[1..], Log.Apply(docs, ops[0]));
    }
  }

  lemma {:induction false} IdsSnoc(ops: seq<Op>, op: Op, ids: set<Id>)
    ensures IdsAll(ops + [op], ids) == IdsAfter(IdsAll(ops, ids), op)
  {
    if ops == [] {
      assert ([op])[1..] == [];
    } else {
      assert (ops + [op])[1..] == ops[1..] + [op];
      IdsSnoc(ops[1..], op, IdsAfter(ids, ops[0]));
    }
  }

  function Keys(hist: seq<Op>): set<Id> { Current(hist).Keys }

  /** The saved vector index and the log together still determine the live ids. */
  ghost predicate IdsOnDisk(disk: Disk, hist: seq<Op>) {
    match disk.savedIds
    case None => disk.ckpt == 0 && Ops(disk.wal) == hist && forall r :: r in disk.wal && r.Entry? ==> r.num > 0
    case Some(ids) => IdsAll(Live(disk.wal, disk.ckpt), ids) == Keys(hist)
  }

  function ListAfter(step: Step, ids: set<Id>, hist: seq<Op>): set<Id> {
    match step
    case Apply(op) => IdsAfter(ids, op)
    case IndexId(id) => ids + {id}
    case Compact(_) => Keys(hist)
    case RebuildIds => Keys(hist)
    case _ => ids
  }

  /** Whether the saved vector index is complete after a step, given whether it was. */
  predicate CompleteAfter(step: Step, complete: bool) {
    !step.Log? && (complete || step.SaveIds? || step.Compact? || step.RebuildIds?)
  }

  /** The steps still to do save the vector index only when it is complete. */
  ghost predicate IdsSafe(todo: seq<Step>, ids: set<Id>, hist: seq<Op>, saved: bool)
    decreases |todo|
  {
    if todo == [] then ids == Keys(hist)
    else
      var step := todo[0];
      && (step.SaveIds? ==> ids == Keys(hist)) && (step.SaveSeq? || step.Rotate? ==> saved)
      && IdsSafe(todo[1..], ListAfter(step, ids, hist), HistAfter(step, hist), CompleteAfter(step, saved))
  }

  ghost predicate IdsOk(cfg: Config, core: Core, todo: seq<Step>) {
    && CoreOk(cfg, core, todo) && IdsOnDisk(core.disk, core.hist)
    && IdsSafe(todo, core.mem.ids, core.hist, core.disk.savedIds == Some(Keys(core.hist)))
  }

  lemma {:induction false} IdsSafeMonotone(todo: seq<Step>, ids: set<Id>, hist: seq<Op>, a: bool, b: bool)
    requires IdsSafe(todo, ids, hist, a) && (a ==> b)
    ensures IdsSafe(todo, ids, hist, b)
    decreases |todo|
  {
    if todo != [] {
      var step := todo[0];
      IdsSafeMonotone(todo[1..], ListAfter(step, ids, hist), HistAfter(step, hist), CompleteAfter(step, a),
                      CompleteAfter(step, b));
    }
  }

  /** A complete saved index survives replay from any sequence number. */
  lemma SavedIdsSurvive(disk: Disk, hist: seq<Op>, k: nat)
    requires Increasing(disk.wal) && IsSuffix(Ops(disk.wal), hist)
    ensures IdsAll(Live(disk.wal, k), Keys(hist)) == Keys(hist)
  {
    LiveIsSuffix(disk.wal, k);
    SuffixTransitive(Live(disk.wal, k), Ops(disk.wal), hist);
    SuffixReplayIsIdempotent(Live(disk.wal, k), hist, map[]);
    IdsAreKeys(Live(disk.wal, k), Current(hist));
  }

  lemma KeysSnoc(hist: seq<Op>, op: Op)
    ensures Keys(hist + [op]) == IdsAfter(Keys(hist), op)
  {
    ApplySnoc(hist, op, map[]);
    assert Log.Apply(Current(hist), op).Keys == IdsAfter(Keys(hist), op);
  }

  lemma LogKeepsIds(cfg: Config, core: Core, op: Op)
    requires IdsOnDisk(core.disk, core.hist) && core.disk.ckpt < core.mem.nextSeq
    ensures var c := Exec(cfg, core, Step.Log(op)); IdsOnDisk(c.disk, c.hist)
  {
    var wal, ckpt, r := core.disk.wal, core.disk.ckpt, Entry(core.mem.nextSeq, op);
    LogOne(wal, r, ckpt);
    KeysSnoc(core.hist, op);
    if core.disk.savedIds.Some? { IdsSnoc(Live(wal, ckpt), op, core.disk.savedIds.value); }
  }

  lemma MarkKeepsIds(cfg: Config, core: Core)
    requires IdsOnDisk(core.disk, core.hist)
    ensures var c := Exec(cfg, core, LogMark); IdsOnDisk(c.disk, c.hist)
  {
    var wal := core.disk.wal;
    LogOne(wal, Mark(core.mem.nextSeq), core.disk.ckpt);
    assert Live(wal, core.disk.ckpt) + [] == Live(wal, core.disk.ckpt);
    assert Ops(wal) + [] == Ops(wal);
  }

  /** A complete saved index agrees with whatever log is left. */
  lemma CompleteIsOnDisk(disk: Disk, hist: seq<Op>)
    requires Increasing(disk.wal) && IsSuffix(Ops(disk.wal), hist) && disk.savedIds == Some(Keys(hist))
    ensures IdsOnDisk(disk, hist)
  {
    SavedIdsSurvive(disk, hist, disk.ckpt);
  }

  /** `compact` and `rebuild_index` list exactly the live ids and save that list. */
  lemma RebuiltIds(cfg: Config, core: Core, todo: seq<Step>)
    requires todo != [] && (todo[0].Compact? || todo[0].RebuildIds?) && CoreOk(cfg, core, todo)
    ensures var c := Exec(cfg, core, todo[0]);
            c.mem.ids == Keys(c.hist) && c.disk.savedIds == Some(Keys(c.hist)) && c.hist == core.hist
  {
    CurrentKeys(cfg, core, todo);
    if todo[0].Compact? { CompactedIds(cfg, core, todo[0].order); }
  }

  lemma CurrentKeys(cfg: Config, core: Core, todo: seq<Step>)
    requires CoreOk(cfg, core, todo)
    ensures core.mem.index.Keys == CurrentDocs(cfg, core).Keys
  {}

  lemma CompactedIds(cfg: Config, core: Core, order: seq<Id>)
    requires DiskOk(cfg, core.disk, core.hist) && MemOk(cfg, core.disk, core.mem)
    requires CurrentDocs(cfg, core) == Current(core.hist) && Enumerates(order, core.mem.index.Keys)
    requires core.mem.index.Keys == CurrentDocs(cfg, core).Keys
    ensures var c := Compacted(cfg, core, order);
            c.mem.ids == Keys(c.hist) && c.disk.savedIds == Some(Keys(c.hist)) && c.hist == core.hist
  {
    var c := Compacted(cfg, core, order);
    assert c.mem.ids == core.mem.index.Keys by { CompactKeeps(cfg, core, order); }
  }

  lemma ListedAfter(cfg: Config, core: Core, step: Step)
    requires var c := Exec(cfg, core, step);
             step.Compact? || step.RebuildIds? ==>
               c.mem.ids == Keys(c.hist) && c.disk.savedIds == Some(Keys(c.hist)) && c.hist == core.hist
    requires step.SaveIds? ==> core.mem.ids == Keys(core.hist)
    ensures var c := Exec(cfg, core, step);
            && c.mem.ids == ListAfter(step, core.mem.ids, core.hist) && c.hist == HistAfter(step, core.hist)
            && (CompleteAfter(step, core.disk.savedIds == Some(Keys(core.hist))) ==>
                  c.disk.savedIds == Some(Keys(c.hist)))
  {}

  lemma TodoKeepsIds(cfg: Config, core: Core, todo: seq<Step>)
    requires todo != [] && IdsSafe(todo, core.mem.ids, core.hist, core.disk.savedIds == Some(Keys(core.hist)))
    requires var c := Exec(cfg, core, todo[0]);
             todo[0].Compact? || todo[0].RebuildIds? ==>
               c.mem.ids == Keys(c.hist) && c.disk.savedIds == Some(Keys(c.hist)) && c.hist == core.hist
    ensures var c := Exec(cfg, core, todo[0]);
            IdsSafe(todo[1..], c.mem.ids, c.hist, c.disk.savedIds == Some(Keys(c.hist)))
  {
    var step, c := todo[0], Exec(cfg, core, todo[0]);
    var complete := core.disk.savedIds == Some(Keys(core.hist));
    ListedAfter(cfg, core, step);
    IdsSafeMonotone(todo[1..], c.mem.ids, c.hist, CompleteAfter(step, complete), c.disk.savedIds == Some(Keys(c.hist)));
  }

  lemma LoggingKeepsIds(cfg: Config, core: Core, step: Step)
    requires IdsOnDisk(core.disk, core.hist) && core.disk.ckpt < core.mem.nextSeq && (step.Log? || step.LogMark?)
    ensures var c := Exec(cfg, core, step); IdsOnDisk(c.disk, c.hist)
  {
    if step.Log? { LogKeepsIds(cfg, core, step.op); } else { MarkKeepsIds(cfg, core); }
  }

  lemma DiskKeepsIds(cfg: Config, core: Core, todo: seq<Step>)
    requires todo != [] && IdsSafe(todo, core.mem.ids, core.hist, core.disk.savedIds == Some(Keys(core.hist)))
    requires IdsOnDisk(core.disk, core.hist) && core.disk.ckpt < core.mem.nextSeq
    requires var c := Exec(cfg, core, todo[0]);
             && Increasing(c.disk.wal) && IsSuffix(Ops(c.disk.wal), c.hist)
             && (todo[0].Compact? || todo[0].RebuildIds? ==> c.disk.savedIds == Some(Keys(c.hist)))
    ensures var c := Exec(cfg, core, todo[0]); IdsOnDisk(c.disk, c.hist)
  {
    var step, c := todo[0], Exec(cfg, core, todo[0]);
    if step.Log? || step.LogMark? {
      LoggingKeepsIds(cfg, core, step);
    } else if step.Compact? || step.RebuildIds? || step.SaveIds? || step.SaveSeq? || step.Rotate? {
      CompleteIsOnDisk(c.disk, c.hist);
    } else {
      OtherKeepsIds(cfg, core, step);
    }
  }

  /** The other steps touch neither the log nor what is saved of the vector index. */
  lemma OtherKeepsIds(cfg: Config, core: Core, step: Step)
    requires IdsOnDisk(core.disk, core.hist)
    requires step.Apply? || step.Write? || step.Reserve? || step.IndexId? || step.SaveIndex?
    ensures var c := Exec(cfg, core, step); IdsOnDisk(c.disk, c.hist)
  {}

  lemma CoreFacts(cfg: Config, core: Core, todo: seq<Step>)
    requires CoreOk(cfg, core, todo)
    ensures Increasing(core.disk.wal) && IsSuffix(Ops(core.disk.wal), core.hist) && core.disk.ckpt < core.mem.nextSeq
  {}

  lemma IdsStepKeeps(cfg: Config, core: Core, todo: seq<Step>)
    requires todo != [] && IdsOk(cfg, core, todo)
    ensures IdsOk(cfg, Exec(cfg, core, todo[0]), todo[1..])
  {
    var c := Exec(cfg, core, todo[0]);
    StepKeeps(cfg, core, todo);
    CoreFacts(cfg, core, todo);
    CoreFacts(cfg, c, todo[1..]);
    if todo[0].Compact? || todo[0].RebuildIds? { RebuiltIds(cfg, core, todo); }
    DiskKeepsIds(cfg, core, todo);
    TodoKeepsIds(cfg, core, todo);
  }

  lemma {:induction false} RunKeepsIds(cfg: Config, core: Core, todo: seq<Step>)
    requires IdsOk(cfg, core, todo)
    ensures IdsOk(cfg, Run(cfg, core, todo), [])
    decreases |todo|
  {
    if todo != [] {
      IdsStepKeeps(cfg, core, todo);
      RunKeepsIds(cfg, Exec(cfg, core, todo[0]), todo[1..]);
    }
  }

  // ----- programs

  lemma IdsSafeCons(step: Step, rest: seq<Step>, ids: set<Id>, hist: seq<Op>, saved: bool)
    requires (step.SaveIds? ==> ids == Keys(hist)) && (step.SaveSeq? || step.Rotate? ==> saved)
    requires IdsSafe(rest, ListAfter(step, ids, hist), HistAfter(step, hist), CompleteAfter(step, saved))
    ensures IdsSafe([step] + rest, ids, hist, saved)
  {
    assert ([step] + rest)[1..] == rest;
  }

  lemma {:induction false} IdsSafeLogs(ops: seq<Op>, rest: seq<Step>, ids: set<Id>, hist: seq<Op>, saved: bool)
    requires IdsSafe(rest, ids, hist + ops, false)
    ensures IdsSafe(Logs(ops) + rest, ids, hist, saved)
    decreases |ops|
  {
    if ops == [] {
      assert Logs(ops) + rest == rest && hist + ops == hist;
      IdsSafeMonotone(rest, ids, hist, false, saved);
    } else {
      assert (Logs(ops) + rest)[1..] == Logs(ops[1..]) + rest;
      assert hist + [ops[0]] + ops[1..] == hist + ops;
      IdsSafeLogs(ops[1..], rest, ids, hist + [ops[0]], false);
    }
  }

  lemma {:induction false} IdsSafeApplies(ops: seq<Op>, rest: seq<Step>, ids: set<Id>, hist: seq<Op>, saved: bool)
    requires IdsSafe(rest, IdsAll(ops, ids), hist, saved)
    ensures IdsSafe(Applies(ops) + rest, ids, hist, saved)
    decreases |ops|
  {
    if ops == [] {
      assert Applies(ops) + rest == rest;
    } else {
      assert (Applies(ops) + rest)[1..] == Applies(ops[1..]) + rest;
      IdsSafeApplies(ops[1..], rest, IdsAfter(ids, ops[0]), hist, saved);
    }
  }

  lemma {:induction false} IdsSafeWrites(batch: seq<Document>, rest: seq<Step>, ids: set<Id>, hist: seq<Op>)
    requires IdsSafe(rest, ids, hist, false)
    ensures IdsSafe(Writes(batch) + rest, ids, hist, false)
    decreases |batch|
  {
    if batch == [] {
      assert Writes(batch) + rest == rest;
    } else {
      assert (Writes(batch) + rest)[1..] == Writes(batch[1..]) + rest;
      IdsSafeWrites(batch[1..], rest, ids, hist);
    }
  }

  lemma {:induction false} IdsSafeIndexIds(batch: seq<Document>, ids: set<Id>, hist: seq<Op>)
    requires IdsAll(Inserts(batch), ids) == Keys(hist)
    ensures IdsSafe(IndexIds(batch), ids, hist, false)
    decreases |batch|
  {
    if batch != [] {
      assert IndexIds(batch)[1..] == IndexIds(batch[1..]);
      assert Inserts(batch)[1..] == Inserts(batch[1..]);
      IdsSafeIndexIds(batch[1..], ids + {batch[0].id}, hist);
    }
  }

  lemma IdsSafeCheckpoint(due: bool, rest: seq<Step>, ids: set<Id>, hist: seq<Op>)
    requires (due ==> ids == Keys(hist)) && IdsSafe(rest, ids, hist, false)
    ensures IdsSafe(CheckpointIf(due) + rest, ids, hist, false)
  {
    if due {
      IdsSafeMonotone(rest, ids, hist, false, true);
      var t4 := [Rotate] + rest;
      IdsSafeCons(Rotate, rest, ids, hist, true);
      var t3 := [SaveSeq] + t4;
      IdsSafeCons(SaveSeq, t4, ids, hist, true);
      var t2 := [LogMark] + t3;
      IdsSafeCons(LogMark, t3, ids, hist, true);
      IdsSafeCons(SaveIds, t2, ids, hist, false);
      IdsSafeCons(SaveIndex, [SaveIds] + t2, ids, hist, false);
      CheckpointIs(rest);
    } else {
      assert CheckpointIf(due) + rest == rest;
    }
  }

  /** A batch whose checkpoint comes between its pointers and its vectors, with ids not yet indexed. */
  predicate Risky(call: Call, due: bool, core: Core) {
    call.InsertBatch? && due && exists doc :: doc in call.docs && doc.id !in core.mem.ids
  }

  lemma {:induction false} KnownIdsChangeNothing(batch: seq<Document>, ids: set<Id>)
    requires forall doc :: doc in batch ==> doc.id in ids
    ensures IdsAll(Inserts(batch), ids) == ids
    decreases |batch|
  {
    if batch != [] {
      assert Inserts(batch)[1..] == Inserts(batch[1..]);
      assert ids + {batch[0].id} == ids;
      KnownIdsChangeNothing(batch[1..], ids);
    }
  }

  lemma KeysAppend(hist: seq<Op>, ops: seq<Op>)
    ensures Keys(hist + ops) == IdsAll(ops, Keys(hist))
  {
    ApplyAppend(hist, ops, map[]);
    IdsAreKeys(ops, Current(hist));
  }

  lemma BatchIsIdsSafe(cfg: Config, core: Core, batch: seq<Document>, due: bool)
    requires core.mem.ids == Keys(core.hist) && !Risky(Call.InsertBatch(batch), due, core)
    ensures IdsSafe(Program(cfg, Call.InsertBatch(batch), core, due), core.mem.ids, core.hist,
                    core.disk.savedIds == Some(Keys(core.hist)))
  {
    var ops, hist, ids := Inserts(batch), core.hist, core.mem.ids;
    KeysAppend(hist, ops);
    if due { KnownIdsChangeNothing(batch, ids); }
    IdsSafeIndexIds(batch, ids, hist + ops);
    IdsSafeCheckpoint(due, IndexIds(batch), ids, hist + ops);
    var tail := CheckpointIf(due) + IndexIds(batch);
    IdsSafeWrites(batch, tail, ids, hist + ops);
    var reserve := Step.Reserve(TotalBytes(Encodings(cfg, batch)));
    assert ([reserve] + (Writes(batch) + tail))[1..] == Writes(batch) + tail;
    IdsSafeLogs(ops, [reserve] + (Writes(batch) + tail), ids, hist, core.disk.savedIds == Some(Keys(hist)));
  }

  lemma LogApplyIsIdsSafe(core: Core, ops: seq<Op>, applied: seq<Op>, due: bool)
    requires core.mem.ids == Keys(core.hist)
    requires ApplyAll(applied, Current(core.hist)) == ApplyAll(ops, Current(core.hist))
    ensures IdsSafe(Logs(ops) + (Applies(applied) + CheckpointIf(due)), core.mem.ids, core.hist,
                    core.disk.savedIds == Some(Keys(core.hist)))
  {
    var hist, ids := core.hist, core.mem.ids;
    KeysAppend(hist, ops);
    IdsAreKeys(ops, Current(hist));
    IdsAreKeys(applied, Current(hist));
    IdsSafeCheckpoint(due, [], IdsAll(applied, ids), hist + ops);
    assert CheckpointIf(due) + [] == CheckpointIf(due);
    IdsSafeApplies(applied, CheckpointIf(due), ids, hist + ops, false);
    IdsSafeLogs(ops, Applies(applied) + CheckpointIf(due), ids, hist, core.disk.savedIds == Some(Keys(hist)));
  }

  lemma MetadataIsIdsSafe(cfg: Config, core: Core, id: Id, metadata: Metadata, due: bool)
    requires core.mem.ids == Keys(core.hist) && CurrentDocs(cfg, core) == Current(core.hist)
    requires forall op :: op in core.hist ==> OpFits(cfg, op)
    ensures IdsSafe(Program(cfg, Call.UpdateMetadata(id, metadata), core, due), core.mem.ids, core.hist,
                    core.disk.savedIds == Some(Keys(core.hist)))
  {
    var hist, ids := core.hist, core.mem.ids;
    var ops := CallOps(cfg, Call.UpdateMetadata(id, metadata), core);
    if ops != [] {
      CurrentFits(cfg, hist, id);
      KeysSnoc(hist, ops[0]);
      assert ids + {id} == ids;
      IdsSafeCheckpoint(due, [], ids, hist + ops);
      assert CheckpointIf(due) + [] == CheckpointIf(due);
      var rest := [Write(ops[0].doc)] + CheckpointIf(due);
      assert rest[1..] == CheckpointIf(due);
      IdsSafeLogs(ops, rest, ids, hist, core.disk.savedIds == Some(Keys(hist)));
    }
  }

  lemma ProgramIsIdsSafe(cfg: Config, call: Call, core: Core, due: bool)
    requires core.mem.ids == Keys(core.hist) && CurrentDocs(cfg, core) == Current(core.hist)
    requires core.mem.index.Keys == CurrentDocs(cfg, core).Keys && forall op :: op in core.hist ==> OpFits(cfg, op)
    requires !Risky(call, due, core)
    ensures IdsSafe(Program(cfg, call, core, due), core.mem.ids, core.hist, core.disk.savedIds == Some(Keys(core.hist)))
  {
    var ops, docs, hist := CallOps(cfg, call, core), CurrentDocs(cfg, core), core.hist;
    match call {
      case InsertBatch(batch) => BatchIsIdsSafe(cfg, core, batch, due);
      case DeleteBatch(ids) =>
        var applied := DeletesApplied(ids, docs.Keys);
        DeletesAgree(ids, docs.Keys, docs);
        LogApplyIsIdsSafe(core, ops, applied, due && applied != []);
      case UpdateMetadata(id, metadata) => MetadataIsIdsSafe(cfg, core, id, metadata, due);
      case Checkpoint =>
        IdsSafeCheckpoint(true, [], core.mem.ids, hist);
        assert CheckpointIf(true) + [] == CHECKPOINT;
        IdsSafeMonotone(CHECKPOINT, core.mem.ids, hist, false, core.disk.savedIds == Some(Keys(hist)));
      case Compact(order) => assert [Step.Compact(order)][1..] == [];
      case RebuildIndex => assert [RebuildIds][1..] == [];
      case Insert(_) => LogApplyIsIdsSafe(core, ops, ops, due);
      case Upsert(_) => LogApplyIsIdsSafe(core, ops, ops, due);
      case Delete(_) => LogApplyIsIdsSafe(core, ops, ops, due);
      case UpdateVector(_, _) => LogApplyIsIdsSafe(core, ops, ops, due);
    }
  }

  /** A vector index that was never saved is rebuilt from the log, which then still reaches back to the start. */
  lemma LoadedIds(cfg: Config, disk: Disk, hist: seq<Op>)
    requires Readable(cfg, disk.data, disk.saved) && IdsOnDisk(disk, hist)
    requires ApplyAll(Live(disk.wal, disk.ckpt), DocsOf(cfg, disk.data, disk.saved)) == Current(hist)
    ensures IdsAll(Live(disk.wal, disk.ckpt), Load(cfg, disk, hist).mem.ids) == Keys(hist)
  {
    if disk.savedIds == None {
      AboveAll(disk.wal, 0);
      if Above(disk.wal, disk.ckpt) == [] {
        assert DocsOf(cfg, disk.data, disk.saved).Keys == disk.saved.Keys;
      } else {
        var none: Docs := map[];
        assert none.Keys == {};
        IdsAreKeys(hist, none);
      }
    }
  }

  lemma LoadIsIdsSafe(cfg: Config, disk: Disk, hist: seq<Op>)
    requires DiskOk(cfg, disk, hist) && IdsOnDisk(disk, hist)
    ensures IdsOk(cfg, Load(cfg, disk, hist), RecoverySteps(disk))
  {
    LoadIsSafe(cfg, disk, hist);
    LoadedIds(cfg, disk, hist);
    LoadTodoIsIdsSafe(cfg, disk, hist);
  }

  lemma LoadTodoIsIdsSafe(cfg: Config, disk: Disk, hist: seq<Op>)
    requires IdsAll(Live(disk.wal, disk.ckpt), Load(cfg, disk, hist).mem.ids) == Keys(hist)
    ensures IdsSafe(RecoverySteps(disk), Load(cfg, disk, hist).mem.ids, hist, disk.savedIds == Some(Keys(hist)))
  {
    var ids := Load(cfg, disk, hist).mem.ids;
    if Above(disk.wal, disk.ckpt) != [] {
      IdsSafeCheckpoint(true, [], Keys(hist), hist);
      assert CheckpointIf(true) + [] == CHECKPOINT;
      IdsSafeApplies(Live(disk.wal, disk.ckpt), CHECKPOINT, ids, hist, false);
      IdsSafeMonotone(RecoverySteps(disk), ids, hist, false, disk.savedIds == Some(Keys(hist)));
    }
  }

  // ----- runs

  ghost predicate StateIdsOk(cfg: Config, s: State) {
    match s
    case Up(core, todo) => IdsOk(cfg, core, todo)
    case Down(disk, hist) => DiskOk(cfg, disk, hist) && IdsOnDisk(disk, hist)
  }

  /** A run in which no risky batch is started. */
  ghost predicate CarefulRun(cfg: Config, run: seq<State>) {
    IsRun(cfg, run) &&
    forall i, call, due :: 0 <= i < |run| - 1 && Start(cfg, run[i], run[i + 1], call, due)
      && IsNewStart(run[i], run[i + 1])
      ==> !Risky(call, due, run[i].core)
  }

  predicate IsNewStart(s: State, t: State) { s.Up? && s.todo == [] && t.Up? }

  lemma StartIsIdsSafe(cfg: Config, s: State, t: State, call: Call, due: bool)
    requires StateIdsOk(cfg, s) && Start(cfg, s, t, call, due) && !Risky(call, due, s.core)
    ensures StateIdsOk(cfg, t)
  {
    ProgramIsSafe(cfg, call, s.core, due);
    assert CurrentDocs(cfg, s.core).Keys == s.core.mem.index.Keys;
    ProgramIsIdsSafe(cfg, call, s.core, due);
  }

  lemma {:induction false} EveryCarefulRunIsOk(cfg: Config, run: seq<State>, i: nat)
    requires CarefulRun(cfg, run) && i < |run|
    ensures StateIdsOk(cfg, run[i])
  {
    if i > 0 {
      EveryCarefulRunIsOk(cfg, run, i - 1);
      var s, t := run[i - 1], run[i];
      assert Next(cfg, run[i - 1], run[i - 1 + 1]);
      if s.Down? {
        LoadIsIdsSafe(cfg, s.disk, s.hist);
      } else if t.Up? && s.todo != [] {
        IdsStepKeeps(cfg, s.core, s.todo);
      } else if t.Up? {
        var call, due :| Start(cfg, s, t, call, due);
        assert Start(cfg, run[i - 1], run[i - 1 + 1], call, due) && IsNewStart(run[i - 1], run[i - 1 + 1]);
        StartIsIdsSafe(cfg, s, t, call, due);
      } else {
        CrashKeepsIds(cfg, s, t.disk);
      }
    }
  }

  /** The vector index has its own file. */
  lemma CrashKeepsIds(cfg: Config, s: State, disk: Disk)
    requires StateIdsOk(cfg, s) && Leaves(s, disk)
    ensures DiskOk(cfg, disk, HistAt(s)) && IdsOnDisk(disk, HistAt(s))
  {
    CrashKeeps(cfg, s, disk);
  }

  lemma ReopenHoldsIds(cfg: Config, disk: Disk, hist: seq<Op>)
    requires DiskOk(cfg, disk, hist) && IdsOnDisk(disk, hist)
    ensures var c := Reopen(cfg, disk, hist); c.mem.ids == CurrentDocs(cfg, c).Keys
  {
    LoadIsIdsSafe(cfg, disk, hist);
    RunKeepsIds(cfg, Load(cfg, disk, hist), RecoverySteps(disk));
  }

  /**
   * Along careful runs a crash at any point and a reopening leave the Flat vector index listing exactly the live
   * ids.
   */
  lemma VectorIndexSurvivesCrashes(cfg: Config, run: seq<State>, i: nat, disk: Disk)
    requires CarefulRun(cfg, run) && i < |run| && Leaves(run[i], disk)
    ensures var c := Reopen(cfg, disk, HistAt(run[i])); c.mem.ids == CurrentDocs(cfg, c).Keys
  {
    EveryCarefulRunIsOk(cfg, run, i);
    CrashKeepsIds(cfg, run[i], disk);
    ReopenHoldsIds(cfg, disk, HistAt(run[i]));
  }

  // ----- the risky batch

  lemma {:induction false} PointerStepsKeepIds(cfg: Config, core: Core, steps: seq<Step>)
    requires forall i :: 0 <= i < |steps| ==> steps[i].Log? || steps[i].Reserve? || steps[i].Write?
    ensures Run(cfg, core, steps).mem.ids == core.mem.ids
    decreases |steps|
  {
    if steps != [] { PointerStepsKeepIds(cfg, Exec(cfg, core, steps[0]), steps[1..]); }
  }

  lemma {:induction false} IndexingKeepsDisk(cfg: Config, core: Core, batch: seq<Document>)
    ensures var c := Run(cfg, core, IndexIds(batch)); c.disk == core.disk && c.mem.index == core.mem.index
    decreases |batch|
  {
    if batch != [] {
      assert IndexIds(batch)[1..] == IndexIds(batch[1..]);
      IndexingKeepsDisk(cfg, AddId(core, batch[0].id), batch[1..]);
    }
  }

  lemma {:induction false} BatchIdsArePresent(batch: seq<Document>, docs: Docs, doc: Document)
    requires doc in batch
    ensures doc.id in IdsAll(Inserts(batch), docs.Keys)
    decreases |batch|
  {
    assert Inserts(batch)[1..] == Inserts(batch[1..]);
    var next := docs[batch[0].id := batch[0]];
    assert next.Keys == docs.Keys + {batch[0].id};
    if doc in batch[1..] {
      BatchIdsArePresent(batch[1..], next, doc);
    } else {
      IdsOnlyGrow(batch[1..], next.Keys);
    }
  }

  lemma {:induction false} IdsOnlyGrow(batch: seq<Document>, ids: set<Id>)
    ensures ids <= IdsAll(Inserts(batch), ids)
    decreases |batch|
  {
    if batch != [] {
      assert Inserts(batch)[1..] == Inserts(batch[1..]);
      IdsOnlyGrow(batch[1..], ids + {batch[0].id});
    }
  }

  /**
   * A risky batch persists the complete pointers, but the vector index as it was before the batch, and then
   * drops the log.
   */
  lemma RiskyBatchDisk(cfg: Config, core: Core, batch: seq<Document>)
    ensures var c := Run(cfg, core, Program(cfg, Call.InsertBatch(batch), core, true));
            && c.disk.savedIds == Some(core.mem.ids) && c.disk.wal == [] && c.disk.saved == c.mem.index
            && (CoreOk(cfg, core, []) && CallOk(cfg, Call.InsertBatch(batch), core) ==>
                  DocsOf(cfg, c.disk.data, c.disk.saved) == ApplyAll(Inserts(batch), CurrentDocs(cfg, core)))
  {
    var call := Call.InsertBatch(batch);
    if CoreOk(cfg, core, []) && CallOk(cfg, call, core) { CallMeaning(cfg, call, core, true); }
    RiskyBatchFiles(cfg, core, batch);
  }

  lemma RiskyBatchFiles(cfg: Config, core: Core, batch: seq<Document>)
    ensures var c := Run(cfg, core, Program(cfg, Call.InsertBatch(batch), core, true));
            c.disk.savedIds == Some(core.mem.ids) && c.disk.wal == [] && c.disk.saved == c.mem.index
  {
    var reserve: seq<Step> := [Step.Reserve(TotalBytes(Encodings(cfg, batch)))];
    var before := Logs(Inserts(batch)) + (reserve + Writes(batch));
    assert Program(cfg, Call.InsertBatch(batch), core, true) == before + (CHECKPOINT + IndexIds(batch));
    var c1 := Run(cfg, core, before);
    RunAppend(cfg, core, before, CHECKPOINT + IndexIds(batch));
    PointerStepsKeepIds(cfg, core, before);
    RunAppend(cfg, c1, CHECKPOINT, IndexIds(batch));
    RunCheckpoint(cfg, c1);
    IndexingKeepsDisk(cfg, Run(cfg, c1, CHECKPOINT), batch);
  }

  /**
   * Exactly when a crash right after `insert_batch` leaves the vector index complete: unless the batch
   * itself triggered the checkpoint and brought an id the index did not list.  The documents survive in
   * either case; a missing id is then never found by search.
   */
  lemma BatchKeepsVectorIndexIff(cfg: Config, core: Core, batch: seq<Document>, due: bool)
    requires IdsOk(cfg, core, []) && CallOk(cfg, Call.InsertBatch(batch), core)
    ensures var done := Run(cfg, core, Program(cfg, Call.InsertBatch(batch), core, due));
            var c := Reopen(cfg, done.disk, done.hist);
            && CurrentDocs(cfg, c) == ApplyAll(Inserts(batch), CurrentDocs(cfg, core))
            && (c.mem.ids == CurrentDocs(cfg, c).Keys <==>
                  !due || forall doc :: doc in batch ==> doc.id in core.mem.ids)
  {
    var call := Call.InsertBatch(batch);
    var program := Program(cfg, call, core, due);
    var done := Run(cfg, core, program);
    CallMeaning(cfg, call, core, due);
    ReopenHolds(cfg, done.disk, done.hist);
    if Risky(call, due, core) {
      RiskyBatchDisk(cfg, core, batch);
      var doc :| doc in batch && doc.id !in core.mem.ids;
      IdsAreKeys(Inserts(batch), CurrentDocs(cfg, core));
      BatchIdsArePresent(batch, CurrentDocs(cfg, core), doc);
      assert doc.id !in Reopen(cfg, done.disk, done.hist).mem.ids;
    } else {
      StartIsIdsSafe(cfg, Up(core, []), Up(core, program), call, due);
      RunKeepsIds(cfg, core, program);
      ReopenHoldsIds(cfg, done.disk, done.hist);
    }
  }
}
