/**
 * The durable collection as a machine whose steps are single disk writes.
 *
 * A public operation is a short program of steps; a crash may strike between any two of them, also
 * while a reopened collection is still recovering.  `hist` is the list of all operations ever logged.
 */
module Recovery {
  import opened Types
  import opened RecordStore
  import opened Log

  /** The document codec and the initial size of the data file. */
  datatype Config = Config(enc: Document -> seq<byte>, dec: seq<byte> -> Option<Document>, initial: nat) {
    /** The encoding of the document decodes to it again, and is short enough for a pointer. */
    predicate Fits(doc: Document) { |enc(doc)| < U32_LIMIT && dec(enc(doc)) == Some(doc) }
  }

  /** Everything that survives a process crash.  `savedIds` is the persisted Flat vector index. */
  datatype Disk = Disk(data: seq<byte>, saved: Index, savedIds: Option<set<Id>>, wal: seq<Record>, ckpt: nat)

  datatype Mem = Mem(index: Index, cursor: nat, nextSeq: nat, ids: set<Id>)

  datatype Core = Core(disk: Disk, mem: Mem, hist: seq<Op>)

  datatype Step =
    | Log(op: Op)              // one WAL record
    | Apply(op: Op)            // insert_internal / delete_internal
    | Write(doc: Document)     // record and pointer only
    | Reserve(bytes: nat)      // one growth for a whole batch
    | IndexId(id: Id)          // vector index only
    | SaveIndex | SaveIds | LogMark | SaveSeq | Rotate   // the sub-steps of a checkpoint
    | Compact(order: seq<Id>)
    | RebuildIds

  datatype State = Up(core: Core, todo: seq<Step>) | Down(disk: Disk, hist: seq<Op>)

  // ----- reading documents through pointers

  function ReadDoc(cfg: Config, data: seq<byte>, p: Pointer): Option<Document> {
    match Read(data, p)
    case None => None
    case Some(bytes) => cfg.dec(bytes)
  }

  function DocsOf(cfg: Config, data: seq<byte>, index: Index): Docs {
    map id | id in index && ReadDoc(cfg, data, index[id]).Some? :: ReadDoc(cfg, data, index[id]).value
  }

  function CurrentDocs(cfg: Config, core: Core): Docs { DocsOf(cfg, core.disk.data, core.mem.index) }

  // ----- steps

  function PutDoc(cfg: Config, core: Core, doc: Document): Core {
    var s := Store(core.disk.data, core.mem.cursor);
    var s' := RecordStore.Append(s, cfg.enc(doc));
    core.(disk := core.disk.(data := s'.data),
          mem := core.mem.(index := core.mem.index[doc.id := AppendPointer(s, cfg.enc(doc))], cursor := s'.cursor))
  }

  function AddId(core: Core, id: Id): Core { core.(mem := core.mem.(ids := core.mem.ids + {id})) }

  function AddRecord(core: Core, r: Record): Core {
    core.(disk := core.disk.(wal := core.disk.wal + [r]), mem := core.mem.(nextSeq := core.mem.nextSeq + 1))
  }

  /** The loop of `compact`: append every live document to a fresh store. */
  function CopyInto(cfg: Config, docs: Docs, order: seq<Id>, s: Store, index: Index): (Store, Index) {
    if order == [] then (s, index)
    else if order[0] !in docs then CopyInto(cfg, docs, order[1..], s, index)
    else
      var doc := docs[order[0]];
      CopyInto(cfg, docs, order[1..], RecordStore.Append(s, cfg.enc(doc)),
               index[doc.id := AppendPointer(s, cfg.enc(doc))])
  }

  ghost function Compacted(cfg: Config, core: Core, order: seq<Id>): Core {
    var (s, index) := CopyInto(cfg, CurrentDocs(cfg, core), order, Store(Zeros(cfg.initial), 0), map[]);
    var data := EnsureSize(s.data, cfg.initial);
    Core(Disk(data, index, Some(index.Keys), [], core.disk.ckpt),
         Mem(index, MaxEnd(index), core.mem.nextSeq, index.Keys), core.hist)
  }

  ghost function Exec(cfg: Config, core: Core, step: Step): Core {
    var disk, mem := core.disk, core.mem;
    match step
    case Log(op) => AddRecord(core, Entry(mem.nextSeq, op)).(hist := core.hist + [op])
    case Apply(Insert(doc)) => AddId(PutDoc(cfg, core, doc), doc.id)
    case Apply(Update(doc)) => AddId(PutDoc(cfg, core.(mem := mem.(index := mem.index - {doc.id})), doc), doc.id)
    case Apply(Delete(id)) => core.(mem := mem.(index := mem.index - {id}, ids := mem.ids - {id}))
    case Write(doc) => PutDoc(cfg, core, doc)
    case Reserve(n) => core.(disk := disk.(data := RecordStore.Reserve(Store(disk.data, mem.cursor), n).data))
    case IndexId(id) => AddId(core, id)
    case SaveIndex => core.(disk := disk.(saved := mem.index))
    case SaveIds => core.(disk := disk.(savedIds := Some(mem.ids)))
    case LogMark => AddRecord(core, Mark(mem.nextSeq))
    case SaveSeq => core.(disk := disk.(ckpt := if mem.nextSeq == 0 then 0 else mem.nextSeq - 1))
    case Rotate => core.(disk := disk.(wal := []))
    case Compact(order) => Compacted(cfg, core, order)
    case RebuildIds => core.(mem := mem.(ids := mem.index.Keys), disk := disk.(savedIds := Some(mem.index.Keys)))
  }

  ghost function Run(cfg: Config, core: Core, steps: seq<Step>): Core
    decreases |steps|
  {
    if steps == [] then core else Run(cfg, Exec(cfg, core, steps[0]), steps[1..])
  }

  // ----- programs

  const CHECKPOINT: seq<Step> := [SaveIndex, SaveIds, LogMark, SaveSeq, Rotate]

  function CheckpointIf(due: bool): seq<Step> { if due then CHECKPOINT else [] }

  function Logs(ops: seq<Op>): (r: seq<Step>)
    ensures |r| == |ops|
  {
    seq(|ops|, i requires 0 <= i < |ops| => Log(ops[i]))
  }

  function Applies(ops: seq<Op>): (r: seq<Step>)
    ensures |r| == |ops|
  {
    seq(|ops|, i requires 0 <= i < |ops| => Apply(ops[i]))
  }

  function Writes(docs: seq<Document>): (r: seq<Step>)
    ensures |r| == |docs|
  {
    seq(|docs|, i requires 0 <= i < |docs| => Write(docs[i]))
  }

  function IndexIds(docs: seq<Document>): (r: seq<Step>)
    ensures |r| == |docs|
  {
    seq(|docs|, i requires 0 <= i < |docs| => IndexId(docs[i].id))
  }

  function Inserts(docs: seq<Document>): (r: seq<Op>)
    ensures |r| == |docs|
  {
    seq(|docs|, i requires 0 <= i < |docs| => Op.Insert(docs[i]))
  }

  function Encodings(cfg: Config, docs: seq<Document>): (r: seq<seq<byte>>) ensures |r| == |docs| {
    seq(|docs|, i requires 0 <= i < |docs| => cfg.enc(docs[i]))
  }

  /** First loop of `delete_batch`: one record per listed id that is present, repeats included. */
  function DeletesLogged(ids: seq<Id>, keys: set<Id>): seq<Op> {
    if ids == [] then []
    else (if ids[0] in keys then [Op.Delete(ids[0])] else []) + DeletesLogged(ids[1..], keys)
  }

  /** Second loop of `delete_batch`: an id already removed is skipped. */
  function DeletesApplied(ids: seq<Id>, keys: set<Id>): seq<Op> {
    if ids == [] then []
    else if ids[0] in keys then [Op.Delete(ids[0])] + DeletesApplied(ids[1..], keys - {ids[0]})
    else DeletesApplied(ids[1..], keys)
  }

  datatype Call =
    | Insert(doc: Document)
    | InsertBatch(docs: seq<Document>)
    | Upsert(doc: Document)
    | Delete(id: Id)
    | DeleteBatch(ids: seq<Id>)
    | UpdateMetadata(id: Id, metadata: Metadata)
    | UpdateVector(id: Id, vector: Vec)
    | Checkpoint
    | Compact(order: seq<Id>)
    | RebuildIndex

  /** The operations a call logs. */
  function CallOps(cfg: Config, call: Call, core: Core): seq<Op> {
    var keys, docs := core.mem.index.Keys, CurrentDocs(cfg, core);
    match call
    case Insert(doc) => [Op.Insert(doc)]
    case InsertBatch(batch) => Inserts(batch)
    case Upsert(doc) => [if doc.id in keys then Op.Update(doc) else Op.Insert(doc)]
    case Delete(id) => if id in keys then [Op.Delete(id)] else []
    case DeleteBatch(ids) => DeletesLogged(ids, keys)
    case UpdateMetadata(id, metadata) => if id in docs then [Op.Update(docs[id].(metadata := metadata))] else []
    case UpdateVector(id, vector) => if id in docs then [Op.Update(docs[id].(vector := vector))] else []
    case _ => []
  }

  /** The steps of a call; `due` says whether `track_operation` finds a checkpoint due. */
  function Program(cfg: Config, call: Call, core: Core, due: bool): seq<Step> {
    var ops := CallOps(cfg, call, core);
    match call
    case InsertBatch(docs) =>
      Logs(ops)
        + ([Step.Reserve(TotalBytes(Encodings(cfg, docs)))] + (Writes(docs) + (CheckpointIf(due) + IndexIds(docs))))
    case DeleteBatch(ids) =>
      var applied := DeletesApplied(ids, core.mem.index.Keys);
      Logs(ops) + (Applies(applied) + CheckpointIf(due && applied != []))
    case UpdateMetadata(_, _) => if ops == [] then [] else Logs(ops) + ([Write(ops[0].doc)] + CheckpointIf(due))
    case Checkpoint => CHECKPOINT
    case Compact(order) => [Step.Compact(order)]
    case RebuildIndex => [RebuildIds]
    case _ => if ops == [] then [] else Logs(ops) + (Applies(ops) + CheckpointIf(due))
  }

  // ----- recovery and runs

  /** What `open` loads: the append cursor and the next sequence number are recomputed. */
  ghost function Load(cfg: Config, disk: Disk, hist: seq<Op>): Core {
    var ids := match disk.savedIds
               case Some(ids) => ids
               case None => if Above(disk.wal, disk.ckpt) == [] then disk.saved.Keys else {};
    Core(disk.(data := EnsureSize(disk.data, cfg.initial)), Mem(disk.saved, MaxEnd(disk.saved), disk.ckpt + 1, ids),
         hist)
  }

  /** The rest of `open`: replay what lies above the saved number and checkpoint, if there is anything. */
  function RecoverySteps(disk: Disk): seq<Step> {
    if Above(disk.wal, disk.ckpt) == [] then [] else Applies(Live(disk.wal, disk.ckpt)) + CHECKPOINT
  }

  ghost function Reopen(cfg: Config, disk: Disk, hist: seq<Op>): Core {
    Run(cfg, Load(cfg, disk, hist), RecoverySteps(disk))
  }

  predicate OpFits(cfg: Config, op: Op) { op.Delete? || cfg.Fits(op.doc) }

  /** Callers hand in documents whose encoding fits a pointer; compaction visits every live id once. */
  ghost predicate CallOk(cfg: Config, call: Call, core: Core) {
    var docs := CurrentDocs(cfg, core);
    match call
    case Insert(doc) => cfg.Fits(doc)
    case Upsert(doc) => cfg.Fits(doc)
    case InsertBatch(batch) => forall doc :: doc in batch ==> cfg.Fits(doc)
    case UpdateMetadata(id, metadata) => id in docs ==> cfg.Fits(docs[id].(metadata := metadata))
    case UpdateVector(id, vector) => id in docs ==> cfg.Fits(docs[id].(vector := vector))
    case Compact(order) => Enumerates(order, core.mem.index.Keys)
    case _ => true
  }

  ghost predicate Start(cfg: Config, s: State, t: State, call: Call, due: bool) {
    s.Up? && s.todo == [] && CallOk(cfg, call, s.core) && t == Up(s.core, Program(cfg, call, s.core, due))
  }

  /**
   * What a crash can leave of the data file while it is grown and written: it may already be longer, and beyond the
   * append cursor its bytes may be anything.
   */
  ghost predicate Torn(data: seq<byte>, cursor: nat, torn: seq<byte>) {
    |data| <= |torn| && forall i :: 0 <= i < |data| && i < cursor ==> torn[i] == data[i]
  }

  /** The disks that a crash in this state, or in the middle of its next step, can leave. */
  ghost predicate Leaves(s: State, disk: Disk) {
    match s
    case Up(core, _) => disk == core.disk.(data := disk.data) && Torn(core.disk.data, core.mem.cursor, disk.data)
    case Down(left, _) => disk == left
  }

  ghost predicate Next(cfg: Config, s: State, t: State) {
    || (exists call, due :: Start(cfg, s, t, call, due))
    || (s.Up? && s.todo != [] && t == Up(Exec(cfg, s.core, s.todo[0]), s.todo[1..]))
    || (s.Up? && t.Down? && Leaves(s, t.disk) && t.hist == s.core.hist)   // a crash, whatever is still to do
    || (s.Down? && t == Up(Load(cfg, s.disk, s.hist), RecoverySteps(s.disk)))
  }

  const FRESH: State := Down(Disk([], map[], None, [], 0), [])

  ghost predicate IsRun(cfg: Config, run: seq<State>) {
    run != [] && run[0] == FRESH && forall i :: 0 <= i < |run| - 1 ==> Next(cfg, run[i], run[i + 1])
  }
}
