/**
 * Writes that the collection refuses.  The log is written before limits and dimensions are checked, and the
 * dimension check comes after the pointer index has changed, so a refused write leaves traces.
 */
module Rejected {
  import opened Types
  import opened Log

  datatype Refusal = LimitReached | WrongDimension

  /** Stored documents, the vector index's ids, and the dimension once it is known. */
  datatype State = State(docs: Docs, live: set<Id>, dim: Option<nat>)

  datatype Outcome = Outcome(state: State, refusal: Option<Refusal>)

  function Expected(dim: Option<nat>, doc: Document): nat { if dim.Some? then dim.value else |doc.vector| }

  function Full(docs: Docs, maxVectors: Option<nat>): bool { maxVectors.Some? && |docs| >= maxVectors.value }

  /** `insert_internal`. */
  function InsertDoc(s: State, doc: Document, maxVectors: Option<nat>): Outcome {
    if Full(s.docs, maxVectors) then Outcome(s, Some(LimitReached))
    else
      var stored := State(s.docs[doc.id := doc], s.live, Some(Expected(s.dim, doc)));
      if |doc.vector| != Expected(s.dim, doc) then Outcome(stored, Some(WrongDimension))
      else Outcome(stored.(live := s.live + {doc.id}), None)
  }

  /** `delete_internal`. */
  function DeleteDoc(s: State, id: Id): State { s.(docs := s.docs - {id}, live := s.live - {id}) }

  /** One record during replay. */
  function ReplayOne(s: State, op: Op, maxVectors: Option<nat>): Outcome {
    match op
    case Insert(doc) => InsertDoc(s, doc, maxVectors)
    case Update(doc) => InsertDoc(DeleteDoc(s, doc.id), doc, maxVectors)
    case Delete(id) => Outcome(DeleteDoc(s, id), None)
  }

  /** `replay_wal`: the first refusal fails the open. */
  function Replay(s: State, ops: seq<Op>, maxVectors: Option<nat>): Result<State, Refusal>
    decreases |ops|
  {
    if ops == [] then Ok(s)
    else
      var step := ReplayOne(s, ops[0], maxVectors);
      if step.refusal.Some? then Err(step.refusal.value) else Replay(step.state, ops[1..], maxVectors)
  }

  method ReplayWal(s: State, ops: seq<Op>, maxVectors: Option<nat>) returns (r: Result<State, Refusal>)
    ensures r == Replay(s, ops, maxVectors)
  {
    var now, rest := s, ops;
    while rest != []
      invariant Replay(now, rest, maxVectors) == Replay(s, ops, maxVectors)
      decreases |rest|
    {
      var step := ReplayOne(now, rest[0], maxVectors);
      if step.refusal.Some? { return Err(step.refusal.value); }
      now, rest := step.state, rest[1..];
    }
    r := Ok(now);
  }

  /** All the vectors that operations bring have dimension d. */
  predicate OfDimension(ops: seq<Op>, d: nat) {
    forall i :: 0 <= i < |ops| && !ops[i].Delete? ==> |ops[i].doc.vector| == d
  }

  /** The dimension a log is held to: the known one, or that of the first vector it brings. */
  function DimensionOf(dim: Option<nat>, ops: seq<Op>): nat {
    if dim.Some? then dim.value
    else if ops == [] then 0
    else if ops[0].Delete? then DimensionOf(dim, ops[1..])
    else |ops[0].doc.vector|
  }

  /** The limit admits the operation: an update has removed its old document by then. */
  predicate Room(docs: Docs, op: Op, maxVectors: Option<nat>) {
    match op
    case Insert(_) => !Full(docs, maxVectors)
    case Update(doc) => !Full(docs - {doc.id}, maxVectors)
    case Delete(_) => true
  }

  /** The limit admits every operation of a log at its turn. */
  predicate RoomAlong(docs: Docs, ops: seq<Op>, maxVectors: Option<nat>)
    decreases |ops|
  {
    ops == [] || (Room(docs, ops[0], maxVectors) && RoomAlong(Apply(docs, ops[0]), ops[1..], maxVectors))
  }

  /** A log can be replayed exactly when all its vectors have the expected dimension and the limit admits them. */
  lemma {:induction false} ReplaysIff(s: State, ops: seq<Op>, maxVectors: Option<nat>)
    ensures Replay(s, ops, maxVectors).Ok? <==>
            OfDimension(ops, DimensionOf(s.dim, ops)) && RoomAlong(s.docs, ops, maxVectors)
    decreases |ops|
  {
    if ops != [] {
      var step, rest := ReplayOne(s, ops[0], maxVectors), ops[1..];
      OfDimensionSplit(ops, rest, DimensionOf(s.dim, ops));
      OneReplaysIff(s, ops[0], maxVectors);
      if step.refusal.None? {
        SameDimension(s, ops, maxVectors);
        ReplaysIff(step.state, rest, maxVectors);
      }
    }
  }

  lemma OneReplaysIff(s: State, op: Op, maxVectors: Option<nat>)
    ensures var step := ReplayOne(s, op, maxVectors);
            && (step.refusal.None? <==>
                  Room(s.docs, op, maxVectors) && (op.Delete? || |op.doc.vector| == Expected(s.dim, op.doc)))
            && (step.refusal.None? ==> step.state.docs == Apply(s.docs, op))
  {}

  /** An accepted operation does not change what the rest of the log is held to. */
  lemma SameDimension(s: State, ops: seq<Op>, maxVectors: Option<nat>)
    requires ops != [] && ReplayOne(s, ops[0], maxVectors).refusal.None?
    ensures ops[1..] != [] || !ops[0].Delete? ==>
      DimensionOf(ReplayOne(s, ops[0], maxVectors).state.dim, ops[1..]) == DimensionOf(s.dim, ops)
  {}

  lemma {:induction false} NoLimitHasRoom(docs: Docs, ops: seq<Op>)
    ensures RoomAlong(docs, ops, None)
    decreases |ops|
  {
    if ops != [] { NoLimitHasRoom(Apply(docs, ops[0]), ops[1..]); }
  }

  /** Without limits a log can be replayed exactly when all its vectors have the expected dimension. */
  lemma OpensIff(s: State, ops: seq<Op>)
    ensures Replay(s, ops, None).Ok? <==> OfDimension(ops, DimensionOf(s.dim, ops))
  {
    ReplaysIff(s, ops, None);
    NoLimitHasRoom(s.docs, ops);
  }

  lemma OfDimensionSplit(ops: seq<Op>, rest: seq<Op>, d: nat)
    requires ops != [] && rest == ops[1..]
    ensures OfDimension(ops, d) <==> (ops[0].Delete? || |ops[0].doc.vector| == d) && OfDimension(rest, d)
  {
    if (ops[0].Delete? || |ops[0].doc.vector| == d) && OfDimension(rest, d) {
      forall i | 0 <= i < |ops| && !ops[i].Delete? ensures |ops[i].doc.vector| == d {
        if i > 0 { assert ops[i] == rest[i - 1]; }
      }
    }
    if OfDimension(ops, d) {
      forall i | 0 <= i < |rest| && !rest[i].Delete? ensures |rest[i].doc.vector| == d { assert rest[i] == ops[i + 1]; }
    }
  }

  lemma AcceptedInsert(s: State, doc: Document, maxVectors: Option<nat>)
    requires s.live == s.docs.Keys && InsertDoc(s, doc, maxVectors).refusal.None?
    ensures var r := InsertDoc(s, doc, maxVectors).state; r.docs == s.docs[doc.id := doc] && r.live == r.docs.Keys
  {}

  lemma Deleted(s: State, id: Id)
    requires s.live == s.docs.Keys
    ensures DeleteDoc(s, id).live == DeleteDoc(s, id).docs.Keys
  {}

  lemma OneApplies(s: State, op: Op, maxVectors: Option<nat>)
    requires s.live == s.docs.Keys && ReplayOne(s, op, maxVectors).refusal.None?
    ensures var r := ReplayOne(s, op, maxVectors).state; r.docs == Apply(s.docs, op) && r.live == r.docs.Keys
  {
    match op
    case Insert(doc) => AcceptedInsert(s, doc, maxVectors);
    case Update(doc) =>
      Deleted(s, doc.id);
      AcceptedInsert(DeleteDoc(s, doc.id), doc, maxVectors);
    case Delete(id) => Deleted(s, id);
  }

  /** A log that can be replayed means what applying its operations means, and the ids agree with the documents. */
  lemma {:induction false} ReplayApplies(s: State, ops: seq<Op>, maxVectors: Option<nat>)
    requires s.live == s.docs.Keys && Replay(s, ops, maxVectors).Ok?
    ensures var r := Replay(s, ops, maxVectors).value; r.docs == ApplyAll(ops, s.docs) && r.live == r.docs.Keys
    decreases |ops|
  {
    if ops != [] {
      OneApplies(s, ops[0], maxVectors);
      ReplayApplies(ReplayOne(s, ops[0], maxVectors).state, ops[1..], maxVectors);
    }
  }

  /**
   * A refused insert is still in the log.  For its dimension it is also in the pointer index, so the vector
   * index has lost step with the documents exactly when the id is new and the dimension is wrong.
   */
  lemma RefusedInsertIff(s: State, doc: Document, maxVectors: Option<nat>)
    requires s.live == s.docs.Keys
    ensures var after := InsertDoc(s, doc, maxVectors).state;
            after.live == after.docs.Keys <==>
            doc.id in s.docs || Full(s.docs, maxVectors) || s.dim.None? || |doc.vector| == s.dim.value
  {
    var after := InsertDoc(s, doc, maxVectors).state;
    if !Full(s.docs, maxVectors) { assert doc.id in after.docs; }
  }

  /** Issuing inserts, upserts and deletes one by one: a refusal is reported and the session goes on. */
  function Issued(s: State, ops: seq<Op>, maxVectors: Option<nat>): State
    decreases |ops|
  {
    if ops == [] then s else Issued(ReplayOne(s, ops[0], maxVectors).state, ops[1..], maxVectors)
  }

  /** Without limits, one refused vector anywhere in the unsaved log keeps the collection from opening. */
  lemma OneRefusalBlocksOpening(s: State, before: seq<Op>, op: Op, after: seq<Op>)
    requires ReplayOne(Issued(s, before, None), op, None).refusal.Some?
    ensures Replay(s, before + [op] + after, None).Err?
  {
    RefusalAhead(s, before, [op] + after);
    assert before + [op] + after == before + ([op] + after);
  }

  lemma {:induction false} RefusalAhead(s: State, before: seq<Op>, rest: seq<Op>)
    requires rest != [] && ReplayOne(Issued(s, before, None), rest[0], None).refusal.Some?
    ensures Replay(s, before + rest, None).Err?
    decreases |before|
  {
    if before == [] {
      assert before + rest == rest;
    } else {
      assert (before + rest)[1..] == before[1..] + rest;
      RefusalAhead(ReplayOne(s, before[0], None).state, before[1..], rest);
    }
  }

  /** Inserts whose ids are all stored already find room exactly when the collection is not full. */
  lemma {:induction false} RoomForKnown(docs: Docs, ops: seq<Op>, maxVectors: nat)
    requires forall op :: op in ops ==> op.Insert? && op.doc.id in docs
    ensures RoomAlong(docs, ops, Some(maxVectors)) <==> ops == [] || |docs| < maxVectors
    decreases |ops|
  {
    if ops != [] {
      assert ops[0] in ops;
      var next := Apply(docs, ops[0]);
      assert next.Keys == docs.Keys && |next.Keys| == |next| && |docs.Keys| == |docs|;
      RoomForKnown(next, ops[1..], maxVectors);
    }
  }

  /** What an accepted log leaves: its dimension is set, and the ids it inserts are stored. */
  lemma {:induction false} AfterInserts(s: State, ops: seq<Op>, maxVectors: Option<nat>)
    requires (forall op :: op in ops ==> op.Insert?) && Replay(s, ops, maxVectors).Ok?
    ensures var r := Replay(s, ops, maxVectors).value;
            && (ops != [] ==> r.dim == Some(DimensionOf(s.dim, ops)))
            && s.docs.Keys <= r.docs.Keys && forall op :: op in ops ==> op.doc.id in r.docs
    decreases |ops|
  {
    if ops != [] {
      assert ops[0] in ops;
      var step := ReplayOne(s, ops[0], maxVectors);
      AfterInserts(step.state, ops[1..], maxVectors);
      forall op | op in ops ensures op.doc.id in Replay(s, ops, maxVectors).value.docs {
        assert op == ops[0] || op in ops[1..];
      }
    }
  }

  /**
   * With a limit even accepted writes can block.  Inserts that were all accepted, replayed over a pointer index that
   * was saved after them, are accepted again exactly when they left room for one more.
   */
  lemma AcceptedReplayAgainIff(s: State, ops: seq<Op>, maxVectors: nat)
    requires (forall op :: op in ops ==> op.Insert?) && Replay(s, ops, Some(maxVectors)).Ok?
    ensures var r := Replay(s, ops, Some(maxVectors)).value;
            Replay(r, ops, Some(maxVectors)).Ok? <==> ops == [] || |r.docs| < maxVectors
  {
    var r := Replay(s, ops, Some(maxVectors)).value;
    AfterInserts(s, ops, Some(maxVectors));
    RoomForKnown(r.docs, ops, maxVectors);
    ReplaysIff(s, ops, Some(maxVectors));
    ReplaysIff(r, ops, Some(maxVectors));
  }
}
