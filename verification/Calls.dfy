/** What each public call of the durable collection leaves, finished or interrupted by a crash. */
module Calls {
  import opened Types
  import opened RecordStore
  import opened Log
  import opened Recovery
  import opened CrashSafety
  import opened CrashTheorem

  // ----- finished calls

  lemma {:induction false} InsertsStore(batch: seq<Document>, docs: Docs, n: nat)
    requires n <= |batch|
    ensures ApplyAll(Inserts(batch)[..n], docs) == Stored(docs, batch, n)
  {
    var ops := Inserts(batch);
    if n > 0 {
      InsertsStore(batch, docs, n - 1);
      assert ops[..n] == ops[..n - 1] + [ops[n - 1]];
      ApplySnoc(ops[..n - 1], ops[n - 1], docs);
    }
  }

  lemma OneOp(op: Op, docs: Docs)
    ensures ApplyAll([op], docs) == Log.Apply(docs, op)
  {
    assert [op][1..] == [];
  }

  lemma StoringOp(op: Op, doc: Document, docs: Docs)
    requires op == Op.Insert(doc) || op == Op.Update(doc)
    ensures ApplyAll([op], docs) == docs[doc.id := doc]
  {
    OneOp(op, docs);
    assert (docs - {doc.id})[doc.id := doc] == docs[doc.id := doc];
  }

  lemma CallApplies(cfg: Config, call: Call, core: Core, due: bool) returns (ops: seq<Op>, docs: Docs)
    requires CoreOk(cfg, core, []) && CallOk(cfg, call, core)
    ensures ops == CallOps(cfg, call, core) && docs == CurrentDocs(cfg, core) && docs.Keys == core.mem.index.Keys
    ensures CurrentDocs(cfg, Run(cfg, core, Program(cfg, call, core, due))) == ApplyAll(ops, docs)
  {
    ops, docs := CallOps(cfg, call, core), CurrentDocs(cfg, core);
    CallMeaning(cfg, call, core, due);
  }

  /** A write of one document stores it, whether its id was known or not. */
  lemma StoringCall(cfg: Config, call: Call, core: Core, due: bool)
    requires CoreOk(cfg, core, []) && (call.Insert? || call.Upsert?) && cfg.Fits(call.doc)
    ensures CurrentDocs(cfg, Run(cfg, core, Program(cfg, call, core, due)))
      == CurrentDocs(cfg, core)[call.doc.id := call.doc]
  {
    var ops, docs := CallApplies(cfg, call, core, due);
    StoringOp(ops[0], call.doc, docs);
    assert ops == [ops[0]];
  }

  /** A batch is stored in its order. */
  lemma BatchCall(cfg: Config, batch: seq<Document>, core: Core, due: bool)
    requires CoreOk(cfg, core, []) && forall doc :: doc in batch ==> cfg.Fits(doc)
    ensures CurrentDocs(cfg, Run(cfg, core, Program(cfg, Call.InsertBatch(batch), core, due)))
      == Stored(CurrentDocs(cfg, core), batch, |batch|)
  {
    var ops, docs := CallApplies(cfg, Call.InsertBatch(batch), core, due);
    InsertsStore(batch, docs, |batch|);
    assert ops[..|batch|] == ops;
  }

  /** A delete removes the document, if there is one, and no other. */
  lemma DeleteCall(cfg: Config, id: Id, core: Core, due: bool)
    requires CoreOk(cfg, core, [])
    ensures CurrentDocs(cfg, Run(cfg, core, Program(cfg, Call.Delete(id), core, due))) == CurrentDocs(cfg, core) - {id}
  {
    var ops, docs := CallApplies(cfg, Call.Delete(id), core, due);
    if id in docs { OneOp(Op.Delete(id), docs); } else { assert docs - {id} == docs; }
  }

  /** An update changes its field of that document, if there is one, and nothing else. */
  lemma MetadataCall(cfg: Config, id: Id, metadata: Metadata, core: Core, due: bool)
    requires CoreOk(cfg, core, [])
    requires var docs := CurrentDocs(cfg, core); id in docs ==> cfg.Fits(docs[id].(metadata := metadata))
    ensures var docs := CurrentDocs(cfg, core);
            CurrentDocs(cfg, Run(cfg, core, Program(cfg, Call.UpdateMetadata(id, metadata), core, due)))
              == if id in docs then docs[id := docs[id].(metadata := metadata)] else docs
  {
    var ops, docs := CallApplies(cfg, Call.UpdateMetadata(id, metadata), core, due);
    if id in docs { UpdateStores(cfg, core, id, docs[id].(metadata := metadata)); }
  }

  lemma VectorCall(cfg: Config, id: Id, vector: Vec, core: Core, due: bool)
    requires CoreOk(cfg, core, [])
    requires var docs := CurrentDocs(cfg, core); id in docs ==> cfg.Fits(docs[id].(vector := vector))
    ensures var docs := CurrentDocs(cfg, core);
            CurrentDocs(cfg, Run(cfg, core, Program(cfg, Call.UpdateVector(id, vector), core, due)))
              == if id in docs then docs[id := docs[id].(vector := vector)] else docs
  {
    var ops, docs := CallApplies(cfg, Call.UpdateVector(id, vector), core, due);
    if id in docs { UpdateStores(cfg, core, id, docs[id].(vector := vector)); }
  }

  /** Every stored document carries the id it is filed under, so an update of it stays there. */
  lemma UpdateStores(cfg: Config, core: Core, id: Id, doc: Document)
    requires CoreOk(cfg, core, []) && id in CurrentDocs(cfg, core) && doc.id == CurrentDocs(cfg, core)[id].id
    ensures ApplyAll([Op.Update(doc)], CurrentDocs(cfg, core)) == CurrentDocs(cfg, core)[id := doc]
  {
    var docs := CurrentDocs(cfg, core);
    CurrentFits(cfg, core.hist, id);
    StoringOp(Op.Update(doc), doc, docs);
  }

  /** The calls that only reorganise files leave the documents alone. */
  lemma UpkeepCall(cfg: Config, call: Call, core: Core, due: bool)
    requires CoreOk(cfg, core, []) && (call.Checkpoint? || call.Compact? || call.RebuildIndex?)
    requires call.Compact? ==> Enumerates(call.order, core.mem.index.Keys)
    ensures CurrentDocs(cfg, Run(cfg, core, Program(cfg, call, core, due))) == CurrentDocs(cfg, core)
  {
    var ops, docs := CallApplies(cfg, call, core, due);
  }

  /** An idle collection survives any crash as it is. */
  lemma IdleIsDurable(cfg: Config, core: Core, disk: Disk)
    requires CoreOk(cfg, core, []) && Leaves(Up(core, []), disk)
    ensures CurrentDocs(cfg, Reopen(cfg, disk, core.hist)) == CurrentDocs(cfg, core)
  {
    CrashKeeps(cfg, Up(core, []), disk);
    ReopenHolds(cfg, disk, core.hist);
  }

  // ----- interrupted calls

  /** After the first n steps of a safe program the rest is safe, and what these steps logged is in the history. */
  lemma {:induction false} Midway(cfg: Config, core: Core, todo: seq<Step>, n: nat)
    requires CoreOk(cfg, core, todo) && n <= |todo|
    ensures var c := Run(cfg, core, todo[..n]);
            CoreOk(cfg, c, todo[n..]) && c.hist == core.hist + Logged(todo[..n])
    decreases n
  {
    RunHist(cfg, core, todo[..n]);
    if n == 0 {
      assert todo[..0] == [] && todo[0..] == todo;
    } else {
      StepKeeps(cfg, core, todo);
      assert todo[..n][1..] == todo[1..][..n - 1] && todo[1..][n - 1..] == todo[n..];
      Midway(cfg, Exec(cfg, core, todo[0]), todo[1..], n - 1);
    }
  }

  lemma IdleHolds(cfg: Config, core: Core)
    requires CoreOk(cfg, core, [])
    ensures Current(core.hist) == CurrentDocs(cfg, core)
  {}

  lemma MidwayReopens(cfg: Config, core: Core, program: seq<Step>, n: nat, disk: Disk)
    requires CoreOk(cfg, core, program) && n <= |program|
    requires Leaves(Up(Run(cfg, core, program[..n]), program[n..]), disk)
    ensures CurrentDocs(cfg, Reopen(cfg, disk, Run(cfg, core, program[..n]).hist))
      == Current(core.hist + Logged(program[..n]))
  {
    var c := Run(cfg, core, program[..n]);
    Midway(cfg, core, program, n);
    CrashKeeps(cfg, Up(c, program[n..]), disk);
    ReopenHolds(cfg, disk, c.hist);
  }

  lemma {:induction false} LoggedPrefix(steps: seq<Step>, n: nat)
    requires n <= |steps|
    ensures Logged(steps[..n]) <= Logged(steps)
    decreases n
  {
    if n > 0 {
      assert steps[..n][1..] == steps[1..][..n - 1];
      LoggedPrefix(steps[1..], n - 1);
    }
  }

  /** A crash after n steps of a call, or in the middle of the next one, loses all but the first m operations of it. */
  lemma Interrupted(cfg: Config, call: Call, core: Core, due: bool, n: nat, disk: Disk) returns (m: nat)
    requires CoreOk(cfg, core, []) && CallOk(cfg, call, core) && n <= |Program(cfg, call, core, due)|
    requires var program := Program(cfg, call, core, due);
             Leaves(Up(Run(cfg, core, program[..n]), program[n..]), disk)
    ensures m <= |CallOps(cfg, call, core)|
    ensures CurrentDocs(cfg, Reopen(cfg, disk, Run(cfg, core, Program(cfg, call, core, due)[..n]).hist))
      == ApplyAll(CallOps(cfg, call, core)[..m], CurrentDocs(cfg, core))
  {
    var program := Program(cfg, call, core, due);
    ProgramIsSafe(cfg, call, core, due);
    MidwayReopens(cfg, core, program, n, disk);
    LoggedPrefix(program, n);
    ProgramLogs(cfg, call, core, due);
    var done := Logged(program[..n]);
    ApplyAppend(core.hist, done, map[]);
    IdleHolds(cfg, core);
    m := |done|;
    assert CallOps(cfg, call, core)[..m] == done;
  }

  /** A call that writes one document is all or nothing: a crash inside it leaves the old documents or the new ones. */
  lemma OneWriteIsAtomic(cfg: Config, call: Call, core: Core, due: bool, n: nat, disk: Disk)
    requires call.Insert? || call.Upsert? || call.Delete? || call.UpdateMetadata? || call.UpdateVector?
    requires CoreOk(cfg, core, []) && CallOk(cfg, call, core) && n <= |Program(cfg, call, core, due)|
    requires var program := Program(cfg, call, core, due);
             Leaves(Up(Run(cfg, core, program[..n]), program[n..]), disk)
    ensures var program := Program(cfg, call, core, due);
            var now := CurrentDocs(cfg, Reopen(cfg, disk, Run(cfg, core, program[..n]).hist));
            now == CurrentDocs(cfg, core) || now == CurrentDocs(cfg, Run(cfg, core, program))
  {
    var m := Interrupted(cfg, call, core, due, n, disk);
    var ops, docs := CallApplies(cfg, call, core, due);
    assert |ops| <= 1;
    if m == 0 { assert ops[..m] == []; } else { assert ops[..m] == ops; }
  }

  /** A crash inside a batch insert leaves a front part of the batch stored, in order. */
  lemma InterruptedBatch(cfg: Config, batch: seq<Document>, core: Core, due: bool, n: nat, disk: Disk) returns (m: nat)
    requires CoreOk(cfg, core, []) && forall doc :: doc in batch ==> cfg.Fits(doc)
    requires n <= |Program(cfg, Call.InsertBatch(batch), core, due)|
    requires var program := Program(cfg, Call.InsertBatch(batch), core, due);
             Leaves(Up(Run(cfg, core, program[..n]), program[n..]), disk)
    ensures m <= |batch|
    ensures var program := Program(cfg, Call.InsertBatch(batch), core, due);
            CurrentDocs(cfg, Reopen(cfg, disk, Run(cfg, core, program[..n]).hist))
              == Stored(CurrentDocs(cfg, core), batch, m)
  {
    m := Interrupted(cfg, Call.InsertBatch(batch), core, due, n, disk);
    InsertsStore(batch, CurrentDocs(cfg, core), m);
  }

  /** A crash inside a batch delete leaves the documents without a front part of the listed ids. */
  lemma InterruptedDeletes(cfg: Config, ids: seq<Id>, core: Core, due: bool, n: nat, disk: Disk) returns (m: nat)
    requires CoreOk(cfg, core, []) && n <= |Program(cfg, Call.DeleteBatch(ids), core, due)|
    requires var program := Program(cfg, Call.DeleteBatch(ids), core, due);
             Leaves(Up(Run(cfg, core, program[..n]), program[n..]), disk)
    ensures m <= |ids|
    ensures var program := Program(cfg, Call.DeleteBatch(ids), core, due);
            CurrentDocs(cfg, Reopen(cfg, disk, Run(cfg, core, program[..n]).hist))
              == CurrentDocs(cfg, core) - set id | id in ids[..m]
  {
    var docs := CurrentDocs(cfg, core);
    assert docs.Keys == core.mem.index.Keys;
    var logged := Interrupted(cfg, Call.DeleteBatch(ids), core, due, n, disk);
    m := FrontOfDeletes(ids, docs.Keys, logged);
    DeletesAgree(ids[..m], docs.Keys, docs);
  }

  /** A front part of the logged deletes is what a front part of the listed ids logs. */
  lemma {:induction false} FrontOfDeletes(ids: seq<Id>, keys: set<Id>, k: nat) returns (m: nat)
    requires k <= |DeletesLogged(ids, keys)|
    ensures m <= |ids| && DeletesLogged(ids, keys)[..k] == DeletesLogged(ids[..m], keys)
  {
    if k == 0 {
      m := 0;
    } else {
      var here := if ids[0] in keys then 1 else 0;
      var rest := FrontOfDeletes(ids[1..], keys, k - here);
      m := rest + 1;
      assert ids[..m][1..] == ids[1..][..rest];
    }
  }
}
