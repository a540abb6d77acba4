/** Concrete runs of the durable collection: a crash that loses nothing, and the inputs on which the code fails. */
module DurableExamples {
  import opened Types
  import RS = RecordStore
  import L = Log
  import R = Recovery
  import Theorem = CrashTheorem
  import Ids = VectorIds
  import Rejected

  function Doc(n: byte): Document { Document(n as nat, [1.0], "", map[]) }

  /** A codec that is exact on the 256 documents `Doc(n)`. */
  function Codec(): R.Config {
    R.Config((d: Document) => [(d.id % 256) as byte],
             (bytes: seq<byte>) => if |bytes| == 1 then Some(Doc(bytes[0])) else None, 16)
  }

  lemma DocsFit(n: byte)
    ensures Codec().Fits(Doc(n))
  {}

  const OP := L.Insert(Doc(7))

  ghost function Opened(): R.Core { R.Load(Codec(), R.FRESH.disk, []) }

  ghost function Logged(): R.Core { R.Exec(Codec(), Opened(), R.Step.Log(OP)) }

  /** Opens a new collection, starts an insert, logs it, and crashes while the record goes into the data file. */
  ghost function CrashedInsert(torn: seq<byte>): seq<R.State> {
    [R.FRESH, R.Up(Opened(), []), R.Up(Opened(), [R.Step.Log(OP), R.Step.Apply(OP)]),
     R.Up(Logged(), [R.Step.Apply(OP)]), R.Down(Logged().disk.(data := torn), [OP])]
  }

  lemma OpenedIsIdle()
    ensures R.RecoverySteps(R.FRESH.disk) == [] && Opened().hist == [] && Opened().mem.index == map[]
      && Opened().mem.ids == {}
    ensures Opened().disk.wal == [] && Opened().disk.savedIds == None && Opened().disk.ckpt == 0
  {
    assert L.Above([], 0) == [];
  }

  lemma InsertProgram()
    ensures R.Program(Codec(), R.Call.Insert(Doc(7)), Opened(), false) == [R.Step.Log(OP), R.Step.Apply(OP)]
    ensures R.CallOk(Codec(), R.Call.Insert(Doc(7)), Opened())
  {
    DocsFit(7);
    assert R.CallOps(Codec(), R.Call.Insert(Doc(7)), Opened()) == [OP];
    assert R.Logs([OP]) == [R.Step.Log(OP)] && R.Applies([OP]) == [R.Step.Apply(OP)];
  }

  lemma CrashedInsertIsRun(torn: seq<byte>)
    requires |torn| >= 16
    ensures R.IsRun(Codec(), CrashedInsert(torn))
  {
    var run := CrashedInsert(torn);
    OpenedIsIdle();
    InsertProgram();
    forall i | 0 <= i < |run| - 1 ensures R.Next(Codec(), run[i], run[i + 1]) {
      if i == 0 {
        assert run[1] == R.Up(R.Load(Codec(), run[0].disk, run[0].hist), R.RecoverySteps(run[0].disk));
      } else if i == 1 {
        assert R.Start(Codec(), run[1], run[2], R.Call.Insert(Doc(7)), false);
      } else if i == 2 {
        assert run[2].todo[1..] == run[3].todo;
      } else {
        assert Logged().mem.cursor == 0 && |Logged().disk.data| == 16;
        assert R.Leaves(run[3], run[4].disk);
      }
    }
  }

  /** The crash leaves one log record, and whatever bytes; opening recovers the document. */
  lemma CrashedInsertIsRecovered(torn: seq<byte>)
    requires |torn| >= 16
    ensures R.IsRun(Codec(), CrashedInsert(torn))
    ensures var s := CrashedInsert(torn)[4];
            && s.Down? && s.disk.data == torn && s.disk.saved == map[] && L.Ops(s.disk.wal) == [OP]
            && R.CurrentDocs(Codec(), R.Reopen(Codec(), s.disk, s.hist)) == map[7 := Doc(7)]
  {
    OpenedIsIdle();
    CrashedInsertIsRun(torn);
    Theorem.CrashAnywhereLosesNothing(Codec(), CrashedInsert(torn), 4, CrashedInsert(torn)[4].disk);
    OneInsert();
    assert Logged().disk.wal == [L.Entry(1, OP)];
    assert L.Ops([L.Entry(1, OP)]) == [OP] by { assert [L.Entry(1, OP)][1..] == []; }
  }

  // ----- a batch that checkpoints halfway

  lemma NewIdsOk()
    ensures Ids.IdsOk(Codec(), Opened(), [])
  {
    var run := [R.FRESH, R.Up(Opened(), [])];
    OpenedIsIdle();
    assert R.Next(Codec(), run[0], run[1]);
    assert Ids.CarefulRun(Codec(), run);
    Ids.EveryCarefulRunIsOk(Codec(), run, 1);
  }

  /** One new document, a checkpoint due, and a restart: the document is stored, the vector index does not list it. */
  lemma BatchLosesItsId()
    ensures var done := R.Run(Codec(), Opened(), R.Program(Codec(), R.Call.InsertBatch([Doc(7)]), Opened(), true));
            var c := R.Reopen(Codec(), done.disk, done.hist);
            R.CurrentDocs(Codec(), c) == map[7 := Doc(7)] && c.mem.ids == {}
  {
    var batch := [Doc(7)];
    var done := R.Run(Codec(), Opened(), R.Program(Codec(), R.Call.InsertBatch(batch), Opened(), true));
    OpenedIsIdle();
    BatchIsCalled();
    NewIdsOk();
    Ids.BatchKeepsVectorIndexIff(Codec(), Opened(), batch, true);
    assert done.disk.savedIds == Some({}) && done.disk.wal == [] by { Ids.RiskyBatchDisk(Codec(), Opened(), batch); }
    NothingToReplay(done.disk, done.hist);
    OneInsert();
  }

  lemma BatchIsCalled()
    ensures R.Inserts([Doc(7)]) == [OP] && R.CallOk(Codec(), R.Call.InsertBatch([Doc(7)]), Opened())
    ensures R.CurrentDocs(Codec(), Opened()) == map[]
  {
    OpenedIsIdle();
    DocsFit(7);
    assert R.Inserts([Doc(7)]) == [OP];
    assert R.CallOps(Codec(), R.Call.InsertBatch([Doc(7)]), Opened()) == [OP];
  }

  lemma NothingToReplay(disk: R.Disk, hist: seq<L.Op>)
    requires disk.wal == [] && disk.savedIds.Some?
    ensures R.Reopen(Codec(), disk, hist).mem.ids == disk.savedIds.value
  {
    assert L.Above(disk.wal, disk.ckpt) == [];
  }

  lemma OneInsert()
    ensures L.ApplyAll([OP], map[]) == map[7 := Doc(7)]
  {
    assert [OP][1..] == [];
    assert L.ApplyAll([OP], map[]) == L.ApplyAll([], L.Apply(map[], OP));
  }

  // ----- a record too long for its pointer

  /** A record of 2^32 bytes gets a pointer of length zero and reads back empty. */
  lemma HugeRecordReadsEmpty(s: RS.Store)
    ensures RS.Read(RS.Append(s, RS.Zeros(RS.U32_LIMIT)).data, RS.AppendPointer(s, RS.Zeros(RS.U32_LIMIT))) == Some([])
  {
    var bytes := RS.Zeros(RS.U32_LIMIT);
    var p, data := RS.AppendPointer(s, bytes), RS.Append(s, bytes).data;
    assert p == RS.Pointer(s.cursor, 0) && s.cursor <= |data|;
    assert data[s.cursor..s.cursor] == [];
  }

  // ----- a batch cut short after its growth

  /** Three bytes asked for in a file of two, and a crash before they are written: six bytes, and nothing in them. */
  lemma CutBatchOvershoots()
    ensures var ops := [RS.CutShort([[1, 2, 3]], map[])];
            |RS.Ran(ops, 2).data| == 6 && RS.PeakCursor(ops, 2) == 0
  {
    assert [RS.CutShort([[1, 2, 3]], map[])] == [] + [RS.CutShort([[1, 2, 3]], map[])];
    var batch: seq<seq<byte>> := [[1, 2, 3]];
    assert batch[1..] == [];
    RS.CutShortKeepsIff([], batch, map[], 2);
    assert RS.MaxEnd(map[]) == 0;
  }

  // ----- refused writes

  /** A vector of the wrong dimension is refused, but stored, and the collection cannot be opened from its log. */
  lemma WrongDimensionBlocksOpening()
    ensures var s := Rejected.State(map[], {}, Some(2));
            var after := Rejected.InsertDoc(s, Doc(7), None);
            && after.refusal == Some(Rejected.WrongDimension)
            && 7 in after.state.docs && 7 !in after.state.live
            && Rejected.Replay(s, [OP], None) == Err(Rejected.WrongDimension)
  {}

  /** With room for one vector, an accepted insert is refused when it is replayed over its own saved pointer. */
  lemma FullCollectionBlocksOpening()
    ensures var s := Rejected.State(map[], {}, None);
            var after := Rejected.InsertDoc(s, Doc(7), Some(1));
            && after.refusal == None
            && Rejected.Replay(after.state, [OP], Some(1)) == Err(Rejected.LimitReached)
  {
    var s := Rejected.State(map[], {}, None);
    assert |s.docs[Doc(7).id := Doc(7)]| == 1;
  }
}
