/** The recovery journal: a prepared operation is a journal record, some separately durable steps, and one final batch.

A batch is atomic.  A crash may fall between any two batches, those of the recovery included. */
module Journal {
  import opened Prelude
  import opened BlockTree
  import Schema

  /** A block stands for its hash; `None` is the zero hash. */
  type Hash = Option<Block>

  type Name = Schema.Name
  type Data = Schema.Data

  const ZERO_HASH: Hash := None
  const METADATA_FORMAT := 3

  datatype Key =
    | JournalKey
    | HeadKey
    | BlockKey(hash: Hash)
    | CanonKey(number: nat)
    | LookupKey(tx: nat)
    | DataKey(name: Name)

  datatype Value =
    | Record(operation: Operation)
    | HashValue(hash: Hash)
    | BlockValue(number: nat, txs: seq<nat>)
    | NumberValue(number: nat)
    | DataValue(data: Data)

  /** A put of state or metadata. */
  datatype Entry = Entry(name: Name, data: Data)

  datatype Kind =
    | Head(oldHead: Hash, newHead: Hash, discard: bool)
    | BranchBlock(target: Hash)
    | Unsupported(kind: string)

  datatype Operation = Operation(
    version: nat, kind: Kind, targetNumber: nat, executionPuts: seq<Entry>, rollbackDeletes: seq<Name>,
    puts: seq<Entry>, deletes: seq<Name>)

  type Db = map<Key, Value>

  // ----- Batches --------------------------------------------------------------------------------------------

  function PutAll(db: Db, entries: seq<Entry>): Db {
    if entries == [] then db
    else
      var last := entries[|entries| - 1];
      PutAll(db, entries[..|entries| - 1])[DataKey(last.name) := DataValue(last.data)]
  }

  function DataKeys(names: seq<Name>): set<Key> {
    set i | 0 <= i < |names| :: DataKey(names[i])
  }

  /** `finalizePreparedOperation`: deletes after puts, and the journal goes with them. */
  function Finalized(db: Db, op: Operation): Db {
    PutAll(PutAll(db, op.executionPuts), op.puts) - DataKeys(op.deletes) - {JournalKey}
  }

  /** `cancelPreparedOperation`. */
  function Cancelled(db: Db, op: Operation): Db {
    db - DataKeys(op.rollbackDeletes) - {JournalKey}
  }

  function StoredTxs(db: Db, target: Hash, number: nat): seq<nat> {
    if BlockKey(target) in db && db[BlockKey(target)].BlockValue? && db[BlockKey(target)].number == number
    then db[BlockKey(target)].txs else []
  }

  function StaleLookups(db: Db, txs: seq<nat>, number: nat): set<Key> {
    set i | 0 <= i < |txs| && LookupKey(txs[i]) in db && db[LookupKey(txs[i])] == NumberValue(number)
    :: LookupKey(txs[i])
  }

  /** `discardPreparedTarget`: the block, its lookups at that height, and the canonical mapping if it names it. */
  function Discarded(db: Db, target: Hash, number: nat): Db {
    var canon := if CanonKey(number) in db && db[CanonKey(number)] == HashValue(target) then {CanonKey(number)} else {};
    db - StaleLookups(db, StoredTxs(db, target, number), number) - canon - {BlockKey(target)}
  }

  /** The keys `executionPutsForJournal` marks for rollback: those with no value yet. */
  function RollbackOf(db: Db, entries: seq<Entry>): seq<Name> {
    if entries == [] then []
    else
      var last := entries[|entries| - 1];
      RollbackOf(db, entries[..|entries| - 1]) + if DataKey(last.name) in db then [] else [last.name]
  }

  // ----- The operation in steps -----------------------------------------------------------------------------

  /** What the mutation of an operation does besides its execution puts: the block it stores, and the batch by which the
      chain moves its head there (head, canonical mapping and lookups, never the journal). */
  datatype Mutation = Mutation(block: Value, moved: map<Key, Value>, dropped: set<Key>)

  predicate Mines(op: Operation) {
    op.kind.Head? && op.kind.discard
  }

  predicate Stores(op: Operation) {
    Mines(op) || op.kind.BranchBlock?
  }

  function Target(op: Operation): Hash {
    match op.kind
    case Head(_, newHead, _) => newHead
    case BranchBlock(target) => target
    case Unsupported(_) => ZERO_HASH
  }

  function Persisted(db: Db, op: Operation, m: Mutation): Db {
    db[BlockKey(Target(op)) := m.block]
  }

  /** `SetCanonical`, one atomic step. */
  function Moved(db: Db, m: Mutation): Db {
    (db + m.moved) - m.dropped
  }

  /** The number of durable steps: the journal record, the mutation, the final batch. */
  function Steps(op: Operation): nat {
    if Mines(op) then 5 else if op.kind.BranchBlock? then 4 else 3
  }

  /** The durable step number `i` of `commitPrepared`, counted from 1. */
  function Durable(db: Db, op: Operation, m: Mutation, i: nat): Db {
    if i <= 1 then db[JournalKey := Record(op)]
    else if i == Steps(op) then Finalized(db, op)
    else if op.kind.Head? && i == Steps(op) - 1 then Moved(db, m)
    else if i == 2 then PutAll(db, op.executionPuts)
    else Persisted(db, op, m)
  }

  /** The database after the first `i` durable steps. */
  function After(db: Db, op: Operation, m: Mutation, i: nat): Db {
    if i == 0 then db else Durable(After(db, op, m, i - 1), op, m, i)
  }

  function Done(db: Db, op: Operation, m: Mutation): Db {
    After(db, op, m, Steps(op))
  }

  /** What the callers of `commitPrepared` hand over. A block's hash fixes its contents; making the current head
      canonical changes nothing. */
  predicate Prepared(db: Db, op: Operation, m: Mutation) {
    && JournalKey !in db && HeadKey in db && op.version == METADATA_FORMAT && !op.kind.Unsupported?
    && op.rollbackDeletes == RollbackOf(db, op.executionPuts)
    && (Stores(op) ==>
          && m.block.BlockValue? && m.block.number == op.targetNumber
          && (BlockKey(Target(op)) in db ==> db[BlockKey(Target(op))] == m.block))
    && JournalKey !in m.moved && JournalKey !in m.dropped
    && (op.kind.Head? ==>
          && db[HeadKey] == HashValue(op.kind.oldHead)
          && HeadKey in m.moved && m.moved[HeadKey] == HashValue(op.kind.newHead) && HeadKey !in m.dropped
          && (op.kind.discard ==> op.kind.oldHead != op.kind.newHead)
          && (!op.kind.discard ==> op.executionPuts == [])
          && (op.kind.oldHead == op.kind.newHead ==> Moved(db, m) == db && m.dropped == {}))
    && (op.kind.BranchBlock? ==> op.kind.target != ZERO_HASH)
  }

  // ----- Crashes and recovery -------------------------------------------------------------------------------

  /** What the first batch of a recovery did: nothing to do, the operation finished or undone, its target discarded with
      the rest still to undo, or startup refused. */
  datatype Outcome = Clean | Finished | Undone | Halfway | Refused

  datatype Recovery = Recovery(db: Db, outcome: Outcome)

  /** The first batch of `recoverPreparedOperation`. */
  function Recovered(db: Db): Recovery {
    if JournalKey !in db then Recovery(db, Clean)
    else if !db[JournalKey].Record? then Recovery(db, Refused)
    else
      var op := db[JournalKey].operation;
      if op.version != METADATA_FORMAT then Recovery(db, Refused)
      else
        match op.kind
        case Head(oldHead, newHead, discard) =>
          if HeadKey !in db then Recovery(db, Refused)
          else if db[HeadKey] == HashValue(newHead) then Recovery(Finalized(db, op), Finished)
          else if db[HeadKey] != HashValue(oldHead) then Recovery(db, Refused)
          else if discard then Recovery(Discarded(db, newHead, op.targetNumber), Halfway)
          else Recovery(Cancelled(db, op), Undone)
        case BranchBlock(target) =>
          if BlockKey(target) in db then Recovery(Finalized(db, op), Finished)
          else if target != ZERO_HASH then Recovery(Discarded(db, target, op.targetNumber), Halfway)
          else Recovery(Cancelled(db, op), Undone)
        case Unsupported(_) => Recovery(db, Refused)
  }

  /** Startup is refused exactly when the journal record cannot be read, has a version other than 3 or an unknown
      kind, or is of a head operation while the head is neither the old nor the new one. */
  lemma RecoveryRefusedIff(db: Db)
    ensures Recovered(db).outcome.Refused? <==>
            JournalKey in db &&
            (|| !db[JournalKey].Record?
             || db[JournalKey].operation.version != 3 || db[JournalKey].operation.kind.Unsupported?
             || (var kind := db[JournalKey].operation.kind;
                 kind.Head? &&
                 (|| HeadKey !in db
                  || (db[HeadKey] != HashValue(kind.oldHead) && db[HeadKey] != HashValue(kind.newHead)))))
    ensures Recovered(db).outcome.Refused? || Recovered(db).outcome.Clean? ==> Recovered(db).db == db
  {
    hide Finalized, Discarded, Cancelled;
  }

  /** One batch of `commitAuxiliary`. */
  datatype Batch = Batch(puts: seq<Entry>, deletes: seq<Name>)

  function Land(db: Db, batch: Batch): Db {
    PutAll(db, batch.puts) - DataKeys(batch.deletes)
  }

  function LandAll(db: Db, batches: seq<Batch>): Db {
    if batches == [] then db else Land(LandAll(db, batches[..|batches| - 1]), batches[|batches| - 1])
  }

  /** Where the process is: `Committing(i)` has made `i` steps durable, `Discarding` is between the two batches of a
      recovery, and `Stuck` has refused to start. */
  datatype Phase = Committing(done: nat) | Running | Down | Discarding | Stuck

  /** A process with its database. `writeErr` is the sticky failure; `acked` says the operation was reported as done,
      and `landed` lists the other commits reported as done. */
  datatype Node = Node(db: Db, phase: Phase, writeErr: bool, acked: bool, landed: seq<Batch>)

  /** The process goes on, dies, sees a write fail, or is asked for another commit, which may fail too. */
  datatype Action = Go | Crash | Fail | OtherCommit(batch: Batch, fails: bool)

  function Begin(start: Db): Node {
    Node(start, Committing(0), false, false, [])
  }

  /** Running, and accepting writes. */
  predicate Up(n: Node) {
    n.phase.Running? && !n.writeErr
  }

  /** `commitAuxiliary`. It looks at the sticky failure only, not for a journal. */
  function Committed(n: Node, batch: Batch, fails: bool): Node {
    if !Up(n) then n
    else if fails then n.(writeErr := true)
    else n.(db := Land(n.db, batch), landed := n.landed + [batch])
  }

  /** One action of a process that runs one prepared operation. While that is being committed the single writer is
      busy, and other commits wait. */
  function Act(op: Operation, m: Mutation, n: Node, a: Action): Node {
    match a
    case Crash => n.(phase := Down, writeErr := false)
    case Fail => if n.phase.Committing? then n.(phase := Running, writeErr := true) else n
    case OtherCommit(batch, fails) => Committed(n, batch, fails)
    case Go =>
      match n.phase
      case Committing(i) =>
        if i >= Steps(op) then n.(phase := Running, acked := true)
        else n.(db := Durable(n.db, op, m, i + 1), phase := Committing(i + 1))
      case Down =>
        var r := Recovered(n.db);
        n.(db := r.db,
           phase := match r.outcome case Halfway => Discarding case Refused => Stuck case _ => Running)
      case Discarding =>
        if JournalKey in n.db && n.db[JournalKey].Record?
        then n.(db := Cancelled(n.db, n.db[JournalKey].operation), phase := Running)
        else n.(phase := Stuck)
      case _ => n
  }

  function Run(op: Operation, m: Mutation, n: Node, actions: seq<Action>): Node
    decreases |actions|
  {
    if actions == [] then n else Run(op, m, Act(op, m, n, actions[0]), actions[1..])
  }

  /** What a node that came up holds: the operation, or nothing of it unless it was reported as done; and on top of that
      every other commit reported as done. */
  predicate Settled(op: Operation, m: Mutation, start: Db, n: Node) {
    || n.db == LandAll(Done(start, op, m), n.landed)
    || (!n.acked && n.db == LandAll(start, n.landed))
  }

  /** However often writes fail and the process crashes, whatever else is committed between, the node never gets stuck
      and comes up settled. */
  ghost predicate Atomic(op: Operation, m: Mutation, start: Db) {
    forall actions: seq<Action> ::
      var n := Run(op, m, Begin(start), actions);
      !n.phase.Stuck? && (Up(n) ==> Settled(op, m, start, n))
  }

  /** The execution puts repeat every value already stored. */
  predicate Repeats(start: Db, op: Operation) {
    forall k :: k in start ==> k in PutAll(start, op.executionPuts) && PutAll(start, op.executionPuts)[k] == start[k]
  }

  predicate Unnamed(start: Db, op: Operation) {
    CanonKey(op.targetNumber) in start ==> start[CanonKey(op.targetNumber)] != HashValue(Target(op))
  }

  /** A caller can check this before the commit. A mined target must be new: not stored, not named canonical, none of
      its transactions looked up at its height; and its execution puts must repeat stored values. A branch block must be
      stored already, or else be unnamed with repeating puts. A switch is always safe. */
  predicate Safe(start: Db, op: Operation, m: Mutation)
    requires Mines(op) ==> m.block.BlockValue?
  {
    if Mines(op) then
      && BlockKey(Target(op)) !in start && Unnamed(start, op) && Repeats(start, op)
      && StaleLookups(start, m.block.txs, op.targetNumber) == {}
    else if op.kind.BranchBlock? then
      BlockKey(Target(op)) in start || (Unnamed(start, op) && Repeats(start, op))
    else true
  }

  // ----- What the batches do --------------------------------------------------------------------------------

  lemma {:induction false} PutAllAt(db: Db, entries: seq<Entry>)
    ensures db.Keys <= PutAll(db, entries).Keys
    ensures forall k :: k in PutAll(db, entries) && !k.DataKey? ==> k in db && PutAll(db, entries)[k] == db[k]
  {
    if entries != [] { PutAllAt(db, entries[..|entries| - 1]); }
  }

  /** Two databases that agree on data agree on data after the same puts. */
  lemma {:induction false} PutAllFrame(a: Db, b: Db, entries: seq<Entry>, k: Key)
    requires k in a <==> k in b
    requires k in a ==> a[k] == b[k]
    ensures k in PutAll(a, entries) <==> k in PutAll(b, entries)
    ensures k in PutAll(a, entries) ==> PutAll(a, entries)[k] == PutAll(b, entries)[k]
  {
    if entries != [] { PutAllFrame(a, b, entries[..|entries| - 1], k); }
  }

  /** A rolled-back key is exactly one the puts would add. */
  lemma {:induction false} RollbackIsAdded(db: Db, entries: seq<Entry>)
    ensures DataKeys(RollbackOf(db, entries)) == PutAll(db, entries).Keys - db.Keys
  {
    if entries != [] {
      var init, last := entries[..|entries| - 1], entries[|entries| - 1];
      RollbackIsAdded(db, init);
      PutAllAt(db, init);
      DataKeysConcat(RollbackOf(db, init), if DataKey(last.name) in db then [] else [last.name]);
      assert DataKeys([]) == {} && DataKeys([last.name]) == {DataKey(last.name)} by { OneDataKey(last.name); }
    }
  }

  lemma OneDataKey(name: Name)
    ensures DataKeys([]) == {} && DataKeys([name]) == {DataKey(name)}
  {
    assert DataKey([name][0]) in DataKeys([name]);
  }

  lemma DataKeysConcat(a: seq<Name>, b: seq<Name>)
    ensures DataKeys(a + b) == DataKeys(a) + DataKeys(b)
  {
    forall k | k in DataKeys(a) + DataKeys(b) ensures k in DataKeys(a + b) {
      if k in DataKeys(a) {
        var i :| 0 <= i < |a| && DataKey(a[i]) == k;
        assert DataKey((a + b)[i]) == k;
      } else {
        var i :| 0 <= i < |b| && DataKey(b[i]) == k;
        assert DataKey((a + b)[|a| + i]) == k;
      }
    }
  }

  /** Undoing the execution puts gives the database back exactly when they repeat what was stored. */
  lemma CancelUndoes(start: Db, op: Operation)
    requires JournalKey !in start && op.rollbackDeletes == RollbackOf(start, op.executionPuts)
    ensures Cancelled(start[JournalKey := Record(op)], op) == start
    ensures var put := PutAll(start[JournalKey := Record(op)], op.executionPuts);
            Cancelled(put, op) == start <==> Repeats(start, op)
  {
    var journaled := start[JournalKey := Record(op)];
    var put := PutAll(journaled, op.executionPuts);
    RollbackIsAdded(start, op.executionPuts);
    PutAllAt(start, op.executionPuts);
    PutAllAt(journaled, op.executionPuts);
    forall k | k != JournalKey
      ensures k in put <==> k in PutAll(start, op.executionPuts)
      ensures k in put ==> put[k] == PutAll(start, op.executionPuts)[k]
    {
      PutAllFrame(start, journaled, op.executionPuts, k);
    }
    assert Cancelled(journaled, op) == start;
    var undone := Cancelled(put, op);
    assert undone.Keys == start.Keys;
    assert forall k :: k in start ==> undone[k] == PutAll(start, op.executionPuts)[k];
    if undone == start {
      assert Repeats(start, op);
    }
  }

  /** The last value a batch puts under a name. */
  function LastPut(entries: seq<Entry>, name: Name): Option<Data> {
    if entries == [] then None
    else if entries[|entries| - 1].name == name then Some(entries[|entries| - 1].data)
    else LastPut(entries[..|entries| - 1], name)
  }

  lemma {:induction false} PutAllIsLastPut(db: Db, entries: seq<Entry>, name: Name)
    ensures var k, last := DataKey(name), LastPut(entries, name);
            if last.Some? then k in PutAll(db, entries) && PutAll(db, entries)[k] == DataValue(last.value)
            else (k in PutAll(db, entries) <==> k in db) && (k in db ==> PutAll(db, entries)[k] == db[k])
  {
    if entries != [] { PutAllIsLastPut(db, entries[..|entries| - 1], name); }
  }

  /** The final batch, name by name: a deleted name is gone even if the batch also puts it; otherwise the last put
      counts, metadata over execution data; anything else but the journal stays. */
  lemma FinalizedMeaning(db: Db, op: Operation, k: Key)
    ensures k == JournalKey ==> k !in Finalized(db, op)
    ensures !k.DataKey? && k != JournalKey ==>
              (k in Finalized(db, op) <==> k in db) && (k in db ==> Finalized(db, op)[k] == db[k])
    ensures k.DataKey? ==>
              var put, executed := LastPut(op.puts, k.name), LastPut(op.executionPuts, k.name);
              var last := if put.Some? then put else executed;
              if k.name in op.deletes then k !in Finalized(db, op)
              else if last.Some? then k in Finalized(db, op) && Finalized(db, op)[k] == DataValue(last.value)
              else (k in Finalized(db, op) <==> k in db) && (k in db ==> Finalized(db, op)[k] == db[k])
  {
    var put := PutAll(db, op.executionPuts);
    PutAllAt(db, op.executionPuts);
    PutAllAt(put, op.puts);
    if k.DataKey? {
      PutAllIsLastPut(db, op.executionPuts, k.name);
      PutAllIsLastPut(put, op.puts, k.name);
      if k.name in op.deletes {
        var i :| 0 <= i < |op.deletes| && op.deletes[i] == k.name;
        assert DataKey(op.deletes[i]) in DataKeys(op.deletes);
      }
    }
  }

  lemma LandMeaning(db: Db, batch: Batch, k: Key)
    ensures !k.DataKey? ==> (k in Land(db, batch) <==> k in db) && (k in db ==> Land(db, batch)[k] == db[k])
    ensures k.DataKey? ==>
              var put := LastPut(batch.puts, k.name);
              if k.name in batch.deletes then k !in Land(db, batch)
              else if put.Some? then k in Land(db, batch) && Land(db, batch)[k] == DataValue(put.value)
              else (k in Land(db, batch) <==> k in db) && (k in db ==> Land(db, batch)[k] == db[k])
  {
    PutAllAt(db, batch.puts);
    if k.DataKey? {
      PutAllIsLastPut(db, batch.puts, k.name);
      if k.name in batch.deletes {
        var i :| 0 <= i < |batch.deletes| && batch.deletes[i] == k.name;
        assert DataKey(batch.deletes[i]) in DataKeys(batch.deletes);
      }
    }
  }

  // ----- The states an operation passes through -------------------------------------------------------------

  /** The last step that recovery undoes; after any later one it finishes the operation. */
  function Undoable(op: Operation): nat {
    if Mines(op) then 3 else if op.kind.BranchBlock? then 2 else 1
  }

  /** Every durable state before the last step carries the journal and knows which head it has. */
  lemma {:induction false} StageFacts(start: Db, op: Operation, m: Mutation, i: nat)
    requires Prepared(start, op, m) && 0 < i < Steps(op)
    ensures var db := After(start, op, m, i);
            && JournalKey in db && db[JournalKey] == Record(op) && HeadKey in db
            && (op.kind.Head? ==>
                  db[HeadKey] == HashValue(if i == Steps(op) - 1 then op.kind.newHead else op.kind.oldHead))
  {
    hide Finalized, Cancelled, RollbackOf, Repeats;
    if i > 1 {
      StageFacts(start, op, m, i - 1);
      PutAllAt(After(start, op, m, i - 1), op.executionPuts);
    }
  }

  lemma DoneFacts(start: Db, op: Operation, m: Mutation)
    requires Prepared(start, op, m)
    ensures JournalKey !in Done(start, op, m)
    ensures op.kind.Head? ==> HeadKey in Done(start, op, m) && Done(start, op, m)[HeadKey] == HashValue(op.kind.newHead)
  {
    var before := After(start, op, m, Steps(op) - 1);
    StageFacts(start, op, m, Steps(op) - 1);
    PutAllAt(before, op.executionPuts);
    PutAllAt(PutAll(before, op.executionPuts), op.puts);
  }

  /** The early states, written out. */
  lemma Stages(start: Db, op: Operation, m: Mutation)
    requires Prepared(start, op, m)
    ensures After(start, op, m, 1) == start[JournalKey := Record(op)]
    ensures !op.kind.Head? || op.kind.discard ==>
              After(start, op, m, 2) == PutAll(start[JournalKey := Record(op)], op.executionPuts)
    ensures Mines(op) ==> After(start, op, m, 3) == Persisted(After(start, op, m, 2), op, m)
    ensures op.kind.BranchBlock? ==> After(start, op, m, 3) == Persisted(After(start, op, m, 2), op, m)
  {
  }

  /** Only the head, the canonical mapping and the lookups. */
  predicate ChainKey(k: Key) {
    k.HeadKey? || k.CanonKey? || k.LookupKey?
  }

  predicate MovesChain(m: Mutation) {
    forall k :: k in m.moved.Keys + m.dropped ==> ChainKey(k)
  }

  /** Two databases hold the same under a key. */
  predicate Agree(a: Db, b: Db, k: Key) {
    (k in a <==> k in b) && (k in a ==> a[k] == b[k])
  }

  lemma MovedElsewhere(db: Db, m: Mutation, k: Key)
    requires MovesChain(m) && !ChainKey(k)
    ensures Agree(Moved(db, m), db, k)
  {
    assert k !in m.moved.Keys + m.dropped;
  }

  lemma MovedAgrees(a: Db, b: Db, m: Mutation, k: Key)
    requires Agree(a, b, k)
    ensures Agree(Moved(a, m), Moved(b, m), k)
  {
  }

  /** With the execution data in, and the block if the operation stores one. */
  lemma BeforeMove(start: Db, op: Operation, m: Mutation, k: Key)
    requires Prepared(start, op, m) && k != JournalKey
    ensures var db := After(start, op, m, if Stores(op) then 3 else 1);
            && (k.DataKey? ==> Agree(db, PutAll(start, op.executionPuts), k))
            && (k.BlockKey? ==> Agree(db, if Stores(op) then Persisted(start, op, m) else start, k))
            && (ChainKey(k) ==> Agree(db, start, k))
  {
    hide Finalized, RollbackOf, Repeats, Moved;
    Stages(start, op, m);
    hide After;
    var journaled := start[JournalKey := Record(op)];
    PutAllAt(journaled, op.executionPuts);
    PutAllFrame(start, journaled, op.executionPuts, k);
  }

  /** The state before the final batch. */
  lemma BeforeFinal(start: Db, op: Operation, m: Mutation, k: Key)
    requires Prepared(start, op, m) && MovesChain(m) && k != JournalKey
    ensures var last := After(start, op, m, Steps(op) - 1);
            && (k.DataKey? ==> Agree(last, PutAll(start, op.executionPuts), k))
            && (k.BlockKey? ==> Agree(last, if Stores(op) then Persisted(start, op, m) else start, k))
            && (ChainKey(k) ==> Agree(last, if op.kind.Head? then Moved(start, m) else start, k))
  {
    var i := if Stores(op) then 3 else 1;
    var db := After(start, op, m, i);
    BeforeMove(start, op, m, k);
    if op.kind.Head? {
      assert Steps(op) - 1 == i + 1 && After(start, op, m, i + 1) == Moved(db, m);
      if ChainKey(k) { MovedAgrees(db, start, m, k); } else { MovedElsewhere(db, m, k); }
    }
    hide After, PutAll, Moved, Prepared;
  }

  /** What a finished operation leaves under every key. */
  lemma DoneMeaning(start: Db, op: Operation, m: Mutation, k: Key)
    requires Prepared(start, op, m) && MovesChain(m)
    ensures var done := Done(start, op, m);
            && (k == JournalKey ==> k !in done)
            && (k.BlockKey? ==> Agree(done, if Stores(op) then Persisted(start, op, m) else start, k))
            && (ChainKey(k) ==> Agree(done, if op.kind.Head? then Moved(start, m) else start, k))
    ensures k.DataKey? ==>
              var done := Done(start, op, m);
              var put, executed := LastPut(op.puts, k.name), LastPut(op.executionPuts, k.name);
              var last := if put.Some? then put else executed;
              if k.name in op.deletes then k !in done
              else if last.Some? then k in done && done[k] == DataValue(last.value)
              else Agree(done, start, k)
  {
    var last := After(start, op, m, Steps(op) - 1);
    if k != JournalKey { BeforeFinal(start, op, m, k); }
    FinalizedMeaning(last, op, k);
    if k.DataKey? { PutAllIsLastPut(start, op.executionPuts, k.name); }
    hide Finalized, Moved, Prepared;
  }

  lemma BlockUntouched(start: Db, op: Operation, m: Mutation, i: nat)
    requires Prepared(start, op, m) && Stores(op) && 1 <= i <= 2
    ensures forall k: Key :: !k.DataKey? && k != JournalKey ==>
              (k in After(start, op, m, i) <==> k in start) && (k in start ==> After(start, op, m, i)[k] == start[k])
  {
    Stages(start, op, m);
    PutAllAt(start[JournalKey := Record(op)], op.executionPuts);
  }

  /** With a new target, discarding at any undoable state leaves the journal and at most the execution puts. */
  lemma DiscardIsClean(start: Db, op: Operation, m: Mutation, i: nat)
    requires Prepared(start, op, m) && Stores(op) && 1 <= i <= Undoable(op)
    requires BlockKey(Target(op)) !in start && Unnamed(start, op)
    requires Mines(op) ==> StaleLookups(start, m.block.txs, op.targetNumber) == {}
    ensures Discarded(After(start, op, m, i), Target(op), op.targetNumber) ==
            After(start, op, m, if i <= 2 then i else 2)
  {
    hide Repeats, RollbackOf, Finalized;
    var db := After(start, op, m, i);
    Stages(start, op, m);
    BlockUntouched(start, op, m, if i <= 2 then i else 2);
    hide After;
    if i <= 2 {
      assert StoredTxs(db, Target(op), op.targetNumber) == [];
      assert StaleLookups(db, [], op.targetNumber) == {};
    } else {
      assert StoredTxs(db, Target(op), op.targetNumber) == m.block.txs;
      forall k | k in StaleLookups(db, m.block.txs, op.targetNumber)
        ensures k in StaleLookups(start, m.block.txs, op.targetNumber) {}
      assert StaleLookups(db, m.block.txs, op.targetNumber) == {};
    }
  }

  // ----- Finishing ------------------------------------------------------------------------------------------

  /** After the same puts two databases agree on every key that was put. */
  lemma {:induction false} PutAllAny(a: Db, b: Db, entries: seq<Entry>, k: Key)
    ensures var x, y := PutAll(a, entries), PutAll(b, entries);
            || (k in x && k in y && x[k] == y[k])
            || ((k in x <==> k in a) && (k in y <==> k in b) && (k in x ==> x[k] == a[k]) && (k in y ==> y[k] == b[k]))
  {
    if entries != [] { PutAllAny(a, b, entries[..|entries| - 1], k); }
  }

  lemma PutAllTwice(db: Db, entries: seq<Entry>)
    ensures PutAll(PutAll(db, entries), entries) == PutAll(db, entries)
  {
    var once := PutAll(db, entries);
    var twice := PutAll(once, entries);
    forall k ensures (k in twice <==> k in once) && (k in once ==> twice[k] == once[k]) {
      PutAllAny(db, once, entries, k);
    }
    assert twice.Keys == once.Keys;
  }

  /** Finishing from the journal alone or after the execution puts is the same. */
  lemma FinalizeAgain(db: Db, op: Operation)
    ensures Finalized(PutAll(db, op.executionPuts), op) == Finalized(db, op)
  {
    PutAllTwice(db, op.executionPuts);
  }

  /** Recovery from a state it can undo. */
  lemma RecoverEarly(start: Db, op: Operation, m: Mutation, i: nat)
    requires Prepared(start, op, m) && Safe(start, op, m) && 1 <= i <= Undoable(op)
    ensures var r := Recovered(After(start, op, m, i));
            || r == Recovery(Done(start, op, m), Finished)
            || r == Recovery(start, Undone)
            || (r.outcome.Halfway? && Repeats(start, op) && Stores(op) &&
                r.db == After(start, op, m, if i <= 2 then i else 2))
  {
    StageFacts(start, op, m, i);
    Stages(start, op, m);
    if op.kind.Head? && !op.kind.discard {
      SwitchRecovers(start, op, m);
    } else if op.kind.BranchBlock? && BlockKey(Target(op)) in start {
      StoredBranchFinishes(start, op, m, i);
    } else {
      DiscardIsClean(start, op, m, i);
      if op.kind.BranchBlock? { BlockUntouched(start, op, m, i); }
    }
    hide *;
  }

  lemma SwitchRecovers(start: Db, op: Operation, m: Mutation)
    requires Prepared(start, op, m) && op.kind.Head? && !op.kind.discard
    ensures var r := Recovered(After(start, op, m, 1));
            r == Recovery(start, Undone) || r == Recovery(Done(start, op, m), Finished)
  {
    var journaled := start[JournalKey := Record(op)];
    Stages(start, op, m);
    StageFacts(start, op, m, 1);
    CancelUndoes(start, op);
    if op.kind.oldHead == op.kind.newHead {
      assert Moved(journaled, m) == journaled;
      assert After(start, op, m, 2) == Durable(After(start, op, m, 1), op, m, 2) == journaled;
    }
  }

  lemma StoredBranchFinishes(start: Db, op: Operation, m: Mutation, i: nat)
    requires Prepared(start, op, m) && op.kind.BranchBlock? && BlockKey(Target(op)) in start && 1 <= i <= 2
    ensures Recovered(After(start, op, m, i)) == Recovery(Done(start, op, m), Finished)
  {
    Stages(start, op, m);
    StageFacts(start, op, m, i);
    BlockUntouched(start, op, m, i);
    BlockUntouched(start, op, m, 2);
    assert After(start, op, m, 3) == After(start, op, m, 2);
    assert Done(start, op, m) == Finalized(After(start, op, m, 3), op);
    FinalizeAgain(start[JournalKey := Record(op)], op);
  }

  /** Once the head has moved, or the branch block is stored, recovery finishes. */
  lemma RecoverLate(start: Db, op: Operation, m: Mutation, i: nat)
    requires Prepared(start, op, m) && Undoable(op) < i < Steps(op)
    ensures Recovered(After(start, op, m, i)) == Recovery(Done(start, op, m), Finished)
  {
    StageFacts(start, op, m, i);
    assert Done(start, op, m) == Finalized(After(start, op, m, Steps(op) - 1), op);
    if op.kind.BranchBlock? { Stages(start, op, m); }
    hide Finalized, Discarded, Cancelled;
  }

  // ----- Safe operations are atomic -------------------------------------------------------------------------

  ghost predicate AtStage(start: Db, op: Operation, m: Mutation, db: Db, low: nat, high: nat) {
    exists i :: low <= i <= high && db == After(start, op, m, i)
  }

  /** Somewhere in the operation, with nothing reported as done yet. */
  ghost predicate Midway(start: Db, op: Operation, m: Mutation, n: Node) {
    AtStage(start, op, m, n.db, 0, Steps(op)) && !n.acked && n.landed == []
  }

  /** Past the operation: no journal, and settled. */
  predicate Past(start: Db, op: Operation, m: Mutation, n: Node) {
    JournalKey !in n.db && Settled(op, m, start, n)
  }

  /** Every node a run can be in. */
  ghost predicate Tracked(start: Db, op: Operation, m: Mutation, n: Node) {
    match n.phase
    case Committing(i) => i <= Steps(op) && n.db == After(start, op, m, i) && !n.acked && n.landed == [] && !n.writeErr
    case Running => Past(start, op, m, n) || (n.writeErr && Midway(start, op, m, n))
    case Down => !n.writeErr && (Past(start, op, m, n) || Midway(start, op, m, n))
    case Discarding =>
      && AtStage(start, op, m, n.db, 1, 2) && Stores(op) && Repeats(start, op)
      && !n.writeErr && Midway(start, op, m, n)
    case Stuck => false
  }

  /** Recovery from any stage. */
  lemma RecoveryFromStage(start: Db, op: Operation, m: Mutation, db: Db)
    requires Prepared(start, op, m) && Safe(start, op, m) && AtStage(start, op, m, db, 0, Steps(op))
    ensures var r := Recovered(db);
            || (r.db == Done(start, op, m) && (r.outcome.Clean? || r.outcome.Finished?))
            || (r.db == start && (r.outcome.Clean? || r.outcome.Undone?))
            || (r.outcome.Halfway? && AtStage(start, op, m, r.db, 1, 2) && AtStage(start, op, m, r.db, 0, Steps(op)) &&
                Stores(op) && Repeats(start, op))
  {
    var i :| 0 <= i <= Steps(op) && db == After(start, op, m, i);
    hide Finalized, Discarded, Cancelled, PutAll, Repeats, Durable, Safe;
    if i == 0 {
      assert After(start, op, m, 0) == start;
    } else if i == Steps(op) {
      DoneFacts(start, op, m);
    } else if i <= Undoable(op) {
      RecoverEarly(start, op, m, i);
      hide Recovered, After;
    } else {
      RecoverLate(start, op, m, i);
      hide Recovered, After;
    }
  }

  lemma RecoveryIsTracked(start: Db, op: Operation, m: Mutation, n: Node)
    requires Prepared(start, op, m) && Safe(start, op, m) && Tracked(start, op, m, n) && n.phase.Down?
    ensures Tracked(start, op, m, Act(op, m, n, Go))
  {
    hide Safe, Durable, Repeats, After;
    if Midway(start, op, m, n) {
      RecoveryFromStage(start, op, m, n.db);
      DoneFacts(start, op, m);
      assert LandAll(start, []) == start && LandAll(Done(start, op, m), []) == Done(start, op, m);
      hide Recovered, Prepared;
    }
  }

  lemma CancelIsTracked(start: Db, op: Operation, m: Mutation, n: Node)
    requires Prepared(start, op, m) && Tracked(start, op, m, n) && n.phase.Discarding?
    ensures Act(op, m, n, Go) == Node(start, Running, false, false, [])
  {
    var i :| 1 <= i <= 2 && n.db == After(start, op, m, i);
    Stages(start, op, m);
    StageFacts(start, op, m, i);
    CancelUndoes(start, op);
    hide Cancelled, PutAll, Repeats, Durable;
  }

  lemma LandKeepsNoJournal(db: Db, batch: Batch)
    ensures JournalKey in Land(db, batch) <==> JournalKey in db
  {
    PutAllAt(db, batch.puts);
  }

  lemma LandMore(db: Db, batches: seq<Batch>, batch: Batch)
    ensures LandAll(db, batches + [batch]) == Land(LandAll(db, batches), batch)
  {
    assert (batches + [batch])[..|batches|] == batches;
  }

  lemma CommitIsTracked(start: Db, op: Operation, m: Mutation, n: Node, batch: Batch, fails: bool)
    requires Tracked(start, op, m, n)
    ensures Tracked(start, op, m, Committed(n, batch, fails))
  {
    hide Land, Done, AtStage;
    if Up(n) {
      LandKeepsNoJournal(n.db, batch);
      LandMore(start, n.landed, batch);
      LandMore(Done(start, op, m), n.landed, batch);
    }
  }

  lemma ActionIsTracked(start: Db, op: Operation, m: Mutation, n: Node, a: Action)
    requires Prepared(start, op, m) && Safe(start, op, m) && Tracked(start, op, m, n)
    ensures Tracked(start, op, m, Act(op, m, n, a))
  {
    hide Safe, Prepared, Recovered, Durable, Repeats, LandAll;
    match a
    case OtherCommit(batch, fails) => CommitIsTracked(start, op, m, n, batch, fails);
    case _ =>
      match n.phase
      case Committing(i) =>
        assert AtStage(start, op, m, n.db, 0, Steps(op));
        DoneFacts(start, op, m);
        assert LandAll(Done(start, op, m), []) == Done(start, op, m) by { LandNone(Done(start, op, m)); }
      case Down => RecoveryIsTracked(start, op, m, n);
      case Discarding =>
        CancelIsTracked(start, op, m, n);
        StartHasNoJournal(start, op, m);
        LandNone(start);
      case _ =>
  }

  lemma LandNone(db: Db)
    ensures LandAll(db, []) == db
  {
  }

  lemma StartHasNoJournal(start: Db, op: Operation, m: Mutation)
    requires Prepared(start, op, m)
    ensures JournalKey !in start
  {
  }

  lemma {:induction false} RunIsTracked(start: Db, op: Operation, m: Mutation, n: Node, actions: seq<Action>)
    requires Prepared(start, op, m) && Safe(start, op, m) && Tracked(start, op, m, n)
    ensures Tracked(start, op, m, Run(op, m, n, actions))
    decreases |actions|
  {
    hide Safe, Prepared, Tracked, Act;
    if actions != [] {
      ActionIsTracked(start, op, m, n, actions[0]);
      RunIsTracked(start, op, m, Act(op, m, n, actions[0]), actions[1..]);
    }
  }

  lemma BeginIsTracked(start: Db, op: Operation, m: Mutation)
    ensures Tracked(start, op, m, Begin(start))
  {
    assert After(start, op, m, 0) == start;
  }

  lemma SafeIsAtomic(start: Db, op: Operation, m: Mutation)
    requires Prepared(start, op, m) && Safe(start, op, m)
    ensures Atomic(op, m, start)
  {
    hide Run, Done, Safe, Prepared, Settled;
    forall actions: seq<Action>
      ensures var n := Run(op, m, Begin(start), actions);
              !n.phase.Stuck? && (Up(n) ==> Settled(op, m, start, n))
    {
      BeginIsTracked(start, op, m);
      RunIsTracked(start, op, m, Begin(start), actions);
    }
  }

  /** From wherever it crashed, a recovery that is not interrupted brings the node up with its two batches. */
  lemma RecoveryCompletes(start: Db, op: Operation, m: Mutation, actions: seq<Action>)
    requires Prepared(start, op, m) && Safe(start, op, m)
    ensures Up(Run(op, m, Begin(start), actions + [Crash, Go, Go]))
  {
    hide Safe, Prepared, Settled, AtStage;
    var n := Run(op, m, Begin(start), actions);
    BeginIsTracked(start, op, m);
    RunIsTracked(start, op, m, Begin(start), actions);
    RunConcat(op, m, Begin(start), actions, [Crash, Go, Go]);
    var down := Act(op, m, n, Crash);
    ActionIsTracked(start, op, m, n, Crash);
    ActionIsTracked(start, op, m, down, Go);
    CrashAndGo(op, m, n);
    if Act(op, m, down, Go).phase.Discarding? { CancelIsTracked(start, op, m, Act(op, m, down, Go)); }
    hide Recovered;
  }

  lemma CrashAndGo(op: Operation, m: Mutation, n: Node)
    ensures Run(op, m, n, [Crash, Go, Go]) == Act(op, m, Act(op, m, Act(op, m, n, Crash), Go), Go)
  {
    hide Act;
    assert [Crash, Go, Go][1..] == [Go, Go] && [Go, Go][1..] == [Go] && [Go][1..] == [];
  }

  lemma {:induction false} RunConcat(op: Operation, m: Mutation, n: Node, a: seq<Action>, b: seq<Action>)
    ensures Run(op, m, n, a + b) == Run(op, m, Run(op, m, n, a), b)
    decreases |a|
  {
    hide Act;
    if a == [] {
      assert a + b == b;
    } else {
      assert (a + b)[1..] == a[1..] + b;
      RunConcat(op, m, Act(op, m, n, a[0]), a[1..], b);
    }
  }

  // ----- Atomic operations are safe -------------------------------------------------------------------------

  function Gos(i: nat): seq<Action> {
    if i == 0 then [] else Gos(i - 1) + [Go]
  }

  lemma {:induction false} RunsTo(start: Db, op: Operation, m: Mutation, i: nat)
    requires i <= Steps(op)
    ensures Run(op, m, Begin(start), Gos(i)) == Node(After(start, op, m, i), Committing(i), false, false, [])
  {
    hide Durable;
    if i > 0 {
      RunsTo(start, op, m, i - 1);
      RunConcat(op, m, Begin(start), Gos(i - 1), [Go]);
      assert [Go][1..] == [];
    }
  }

  /** Without a crash the operation is done, and reported so. */
  lemma RunsToDone(start: Db, op: Operation, m: Mutation)
    ensures Run(op, m, Begin(start), Gos(Steps(op) + 1)) == Node(Done(start, op, m), Running, false, true, [])
  {
    hide Durable;
    var i := Steps(op);
    RunsTo(start, op, m, i);
    RunConcat(op, m, Begin(start), Gos(i), [Go]);
    assert [Go][1..] == [];
  }

  /** A write that fails leaves what was durable by then, and nothing is accepted any more. */
  lemma RunsToFailure(start: Db, op: Operation, m: Mutation, i: nat)
    requires i <= Steps(op)
    ensures Run(op, m, Begin(start), Gos(i) + [Fail]) == Node(After(start, op, m, i), Running, true, false, [])
  {
    hide Durable;
    RunsTo(start, op, m, i);
    RunConcat(op, m, Begin(start), Gos(i), [Fail]);
    assert [Fail][1..] == [];
  }

  /** Without other commits nothing lands on top. */
  lemma {:induction false} RunsAlone(op: Operation, m: Mutation, n: Node, actions: seq<Action>)
    requires n.landed == [] && forall i :: 0 <= i < |actions| ==> !actions[i].OtherCommit?
    ensures Run(op, m, n, actions).landed == []
    decreases |actions|
  {
    hide Recovered, Durable, Cancelled;
    if actions != [] { RunsAlone(op, m, Act(op, m, n, actions[0]), actions[1..]); }
  }

  // ----- Refusing while a journal waits ---------------------------------------------------------------------

  /** No write is accepted while a journal waits for recovery. */
  predicate Guarded(op: Operation, n: Node) {
    match n.phase
    case Committing(i) => !n.writeErr && i <= Steps(op) && (i == 0 || i == Steps(op) ==> JournalKey !in n.db)
    case Running => n.writeErr || JournalKey !in n.db
    case _ => !n.writeErr
  }

  lemma ActionKeepsGuard(op: Operation, m: Mutation, n: Node, a: Action)
    requires Guarded(op, n)
    ensures Guarded(op, Act(op, m, n, a))
  {
    hide PutAll, Discarded, Moved, Persisted;
    if a.OtherCommit? { LandKeepsNoJournal(n.db, a.batch); }
  }

  /** Whatever operation runs, safe or not: a node that accepts writes has no journal, so another commit only ever lands
      on a database whose last operation is finished or undone. */
  lemma {:induction false} RunIsGuarded(op: Operation, m: Mutation, n: Node, actions: seq<Action>)
    requires Guarded(op, n)
    ensures Guarded(op, Run(op, m, n, actions))
    ensures Up(Run(op, m, n, actions)) ==> JournalKey !in Run(op, m, n, actions).db
    decreases |actions|
  {
    hide Act;
    if actions != [] {
      ActionKeepsGuard(op, m, n, actions[0]);
      RunIsGuarded(op, m, Act(op, m, n, actions[0]), actions[1..]);
    }
  }

  // ----- Atomic operations are safe, continued --------------------------------------------------------------

  /** Crash after step `i`, then recover. */
  lemma CrashAfter(start: Db, op: Operation, m: Mutation, i: nat)
    requires i < Steps(op) && Atomic(op, m, start)
    ensures var down := Node(After(start, op, m, i), Down, false, false, []);
            var n := Act(op, m, Act(op, m, down, Go), Go);
            Up(n) && n.landed == [] ==> n.db == start || n.db == Done(start, op, m)
  {
    hide Recovered, Done, After;
    RunsTo(start, op, m, i);
    RunConcat(op, m, Begin(start), Gos(i), [Crash, Go, Go]);
    CrashAndGo(op, m, Run(op, m, Begin(start), Gos(i)));
  }

  /** When recovery takes its discarding path, it ends with both batches applied. */
  lemma HalfwayIsUndone(op: Operation, m: Mutation, down: Node)
    requires down.phase.Down? && Recovered(down.db).outcome.Halfway?
    requires var db := Recovered(down.db).db; JournalKey in db && db[JournalKey] == Record(op)
    ensures Act(op, m, Act(op, m, down, Go), Go) ==
            down.(db := Cancelled(Recovered(down.db).db, op), phase := Running)
  {
    hide Recovered, Cancelled;
  }

  lemma CrashDiscards(start: Db, op: Operation, m: Mutation, i: nat)
    requires Prepared(start, op, m) && Atomic(op, m, start) && 1 <= i <= Undoable(op)
    requires Mines(op) || (op.kind.BranchBlock? && BlockKey(Target(op)) !in start)
    ensures Cancelled(Discarded(After(start, op, m, i), Target(op), op.targetNumber), op) == start
  {
    hide Atomic, Repeats, RollbackOf, After, Discarded, Finalized, Cancelled, Act;
    var db := After(start, op, m, i);
    StageFacts(start, op, m, i);
    if op.kind.BranchBlock? { BlockUntouched(start, op, m, i); }
    assert Recovered(db) == Recovery(Discarded(db, Target(op), op.targetNumber), Halfway);
    hide Recovered;
    UndoneIsNotDone(start, op, m, db);
    HalfwayIsUndone(op, m, Node(db, Down, false, false, []));
    CrashAfter(start, op, m, i);
  }

  lemma UndoneIsNotDone(start: Db, op: Operation, m: Mutation, db: Db)
    requires Prepared(start, op, m) && Stores(op)
    requires HeadKey in db && (Mines(op) ==> db[HeadKey] == HashValue(op.kind.oldHead))
    requires JournalKey in db
    ensures JournalKey in Discarded(db, Target(op), op.targetNumber)
    ensures Discarded(db, Target(op), op.targetNumber)[JournalKey] == db[JournalKey]
    ensures Cancelled(Discarded(db, Target(op), op.targetNumber), op) != Done(start, op, m)
  {
    if Mines(op) {
      DoneFacts(start, op, m);
    } else {
      assert BlockKey(Target(op)) in Done(start, op, m) by {
        Stages(start, op, m);
        var stored := After(start, op, m, 3);
        assert Done(start, op, m) == Finalized(stored, op);
        PutAllAt(stored, op.executionPuts);
        PutAllAt(PutAll(stored, op.executionPuts), op.puts);
      }
    }
  }

  lemma AtomicIsSafe(start: Db, op: Operation, m: Mutation)
    requires Prepared(start, op, m) && Atomic(op, m, start)
    ensures Safe(start, op, m)
  {
    hide Atomic, RollbackOf, Finalized;
    if Mines(op) || (op.kind.BranchBlock? && BlockKey(Target(op)) !in start) {
      Stages(start, op, m);
      CrashDiscards(start, op, m, 1);
      assert BlockKey(Target(op)) !in start;
      assert Unnamed(start, op);
      CrashDiscards(start, op, m, 2);
      CancelUndoes(start, op);
      EarlyDiscard(start, op, m);
      if Mines(op) {
        CrashDiscards(start, op, m, 3);
        LookupsSurvive(start, op, m);
      }
    }
  }

  lemma EarlyDiscard(start: Db, op: Operation, m: Mutation)
    requires Prepared(start, op, m) && Stores(op)
    requires BlockKey(Target(op)) !in start && Unnamed(start, op)
    ensures Discarded(After(start, op, m, 2), Target(op), op.targetNumber) == After(start, op, m, 2)
  {
    var db := After(start, op, m, 2);
    BlockUntouched(start, op, m, 2);
    hide After;
    assert StoredTxs(db, Target(op), op.targetNumber) == [];
    assert StaleLookups(db, [], op.targetNumber) == {};
  }

  lemma LookupsSurvive(start: Db, op: Operation, m: Mutation)
    requires Prepared(start, op, m) && Mines(op)
    requires Cancelled(Discarded(After(start, op, m, 3), Target(op), op.targetNumber), op) == start
    ensures StaleLookups(start, m.block.txs, op.targetNumber) == {}
  {
  }

  /** Over every sequence of steps, crashes, failures, interrupted recoveries and other commits, an operation is all or
      nothing exactly when it is safe. */
  lemma AtomicIffSafe(start: Db, op: Operation, m: Mutation)
    requires Prepared(start, op, m)
    ensures Atomic(op, m, start) <==> Safe(start, op, m)
  {
    hide Atomic, Safe;
    if Safe(start, op, m) { SafeIsAtomic(start, op, m); }
    if Atomic(op, m, start) { AtomicIsSafe(start, op, m); }
  }

  // ----- Mining a stored block ------------------------------------------------------------------------------

  /** The one way a mining that is safe otherwise is not: its target is stored already. */
  predicate Restores(start: Db, op: Operation, m: Mutation) {
    Mines(op) && BlockKey(Target(op)) in start && m.block.BlockValue? && Safe(Without(start, op), op, m)
  }

  function Without(start: Db, op: Operation): Db {
    start - {BlockKey(Target(op))}
  }

  lemma {:induction false} SameRollback(a: Db, b: Db, entries: seq<Entry>)
    requires forall n: Name :: DataKey(n) in a <==> DataKey(n) in b
    ensures RollbackOf(a, entries) == RollbackOf(b, entries)
  {
    if entries != [] { SameRollback(a, b, entries[..|entries| - 1]); }
  }

  lemma WithoutIsPrepared(start: Db, op: Operation, m: Mutation)
    requires Prepared(start, op, m) && Mines(op)
    ensures Prepared(Without(start, op), op, m)
  {
    hide RollbackOf;
    SameRollback(start, Without(start, op), op.executionPuts);
  }

  /** Its stages are those without the block, up to the step that stores it. */
  lemma StagesWithout(start: Db, op: Operation, m: Mutation)
    requires Prepared(start, op, m) && Restores(start, op, m)
    ensures forall i :: 1 <= i <= 2 ==> After(Without(start, op), op, m, i) == Without(After(start, op, m, i), op)
    ensures forall i :: 3 <= i <= Steps(op) ==> After(Without(start, op), op, m, i) == After(start, op, m, i)
  {
    var key, start' := BlockKey(Target(op)), Without(start, op);
    WithoutIsPrepared(start, op, m);
    Stages(start, op, m);
    Stages(start', op, m);
    hide Safe, Prepared, Finalized, RollbackOf, Moved;
    var a, b := start[JournalKey := Record(op)], start'[JournalKey := Record(op)];
    assert b == a - {key};
    PutWithout(a, op.executionPuts, key);
    assert After(start', op, m, 3) == After(start, op, m, 3);
    assert After(start', op, m, 4) == After(start, op, m, 4);
    assert After(start', op, m, 5) == After(start, op, m, 5);
  }

  lemma PutWithout(db: Db, entries: seq<Entry>, key: Key)
    requires !key.DataKey?
    ensures PutAll(db - {key}, entries) == PutAll(db, entries) - {key}
  {
    var x, y := PutAll(db - {key}, entries), PutAll(db, entries) - {key};
    PutAllAt(db, entries);
    PutAllAt(db - {key}, entries);
    forall k ensures Agree(x, y, k) {
      if k != key { PutAllFrame(db - {key}, db, entries, k); }
    }
    assert x.Keys == y.Keys;
  }

  /** A recovery that undoes it takes the stored block away. */
  lemma DiscardTakesStored(start: Db, op: Operation, m: Mutation, i: nat)
    requires Prepared(start, op, m) && Restores(start, op, m) && 1 <= i <= Undoable(op)
    ensures Discarded(After(start, op, m, i), Target(op), op.targetNumber) ==
            After(Without(start, op), op, m, if i <= 2 then i else 2)
  {
    var start' := Without(start, op);
    StagesWithout(start, op, m);
    WithoutIsPrepared(start, op, m);
    if i == 3 {
      DiscardIsClean(start', op, m, 3);
    } else {
      var db := After(start, op, m, i);
      BlockUntouched(start, op, m, i);
      hide After, RollbackOf, Finalized, Repeats;
      assert StoredTxs(db, Target(op), op.targetNumber) == m.block.txs;
      forall k | k in StaleLookups(db, m.block.txs, op.targetNumber)
        ensures k in StaleLookups(start', m.block.txs, op.targetNumber) {}
      assert StaleLookups(db, m.block.txs, op.targetNumber) == {};
    }
  }

  /** The node is tracked from the database it started from, or from that database without the block. */
  ghost predicate TrackedEither(start: Db, op: Operation, m: Mutation, n: Node) {
    (Tracked(start, op, m, n) && !n.phase.Discarding?) || Tracked(Without(start, op), op, m, n)
  }

  lemma RecoveryTakesStored(start: Db, op: Operation, m: Mutation, n: Node)
    requires Prepared(start, op, m) && Restores(start, op, m) && Tracked(start, op, m, n) && n.phase.Down?
    ensures TrackedEither(start, op, m, Act(op, m, n, Go))
  {
    hide Safe, Durable, Repeats, Discarded, Finalized, Cancelled, RollbackOf;
    if Midway(start, op, m, n) {
      var i :| 0 <= i <= Steps(op) && n.db == After(start, op, m, i);
      LandNone(start);
      LandNone(Done(start, op, m));
      if i == 0 {
        assert After(start, op, m, 0) == start;
      } else if i == Steps(op) {
        DoneFacts(start, op, m);
      } else if i <= Undoable(op) {
        StageFacts(start, op, m, i);
        DiscardTakesStored(start, op, m, i);
        var j := if i <= 2 then i else 2;
        var back := After(Without(start, op), op, m, j);
        assert Recovered(n.db) == Recovery(back, Halfway);
        assert AtStage(Without(start, op), op, m, back, 1, 2) && AtStage(Without(start, op), op, m, back, 0, Steps(op));
        SafeRepeats(start, op, m);
      } else {
        RecoverLate(start, op, m, i);
        DoneFacts(start, op, m);
      }
    }
  }

  lemma SafeRepeats(start: Db, op: Operation, m: Mutation)
    requires Restores(start, op, m)
    ensures Repeats(Without(start, op), op)
  {
  }

  lemma ActionIsTrackedEither(start: Db, op: Operation, m: Mutation, n: Node, a: Action)
    requires Prepared(start, op, m) && Restores(start, op, m) && TrackedEither(start, op, m, n)
    ensures TrackedEither(start, op, m, Act(op, m, n, a))
  {
    WithoutIsPrepared(start, op, m);
    hide Safe, Prepared, Recovered, Durable, Repeats, LandAll, Without;
    if Tracked(Without(start, op), op, m, n) {
      ActionIsTracked(Without(start, op), op, m, n, a);
    } else if a.OtherCommit? {
      CommitIsTracked(start, op, m, n, a.batch, a.fails);
    } else if n.phase.Down? && a.Go? {
      RecoveryTakesStored(start, op, m, n);
    } else {
      assert n.phase.Committing? ==> AtStage(start, op, m, n.db, 0, Steps(op));
      DoneFacts(start, op, m);
      LandNone(Done(start, op, m));
    }
  }

  lemma {:induction false} RunIsTrackedEither(start: Db, op: Operation, m: Mutation, n: Node, actions: seq<Action>)
    requires Prepared(start, op, m) && Restores(start, op, m) && TrackedEither(start, op, m, n)
    ensures TrackedEither(start, op, m, Run(op, m, n, actions))
    decreases |actions|
  {
    hide Restores, Prepared, TrackedEither, Act;
    if actions != [] {
      ActionIsTrackedEither(start, op, m, n, actions[0]);
      RunIsTrackedEither(start, op, m, Act(op, m, n, actions[0]), actions[1..]);
    }
  }

  /** Over every run, a mining of a stored block ends all or nothing, or with just that block gone. */
  lemma StoredTargetRuns(start: Db, op: Operation, m: Mutation, actions: seq<Action>)
    requires Prepared(start, op, m) && Restores(start, op, m)
    ensures var n := Run(op, m, Begin(start), actions);
            && !n.phase.Stuck?
            && (Up(n) ==> Settled(op, m, start, n) || (!n.acked && n.db == LandAll(Without(start, op), n.landed)))
  {
    BeginIsTracked(start, op, m);
    assert TrackedEither(start, op, m, Begin(start));
    RunIsTrackedEither(start, op, m, Begin(start), actions);
    SameDone(start, op, m);
    hide Restores, Prepared, Run, Done, Without, Midway;
  }

  lemma SameDone(start: Db, op: Operation, m: Mutation)
    requires Prepared(start, op, m) && Restores(start, op, m)
    ensures Done(Without(start, op), op, m) == Done(start, op, m)
  {
    StagesWithout(start, op, m);
  }

  /** And a crash right after its journal record does take the block. */
  lemma CrashTakesStored(start: Db, op: Operation, m: Mutation)
    requires Prepared(start, op, m) && Restores(start, op, m)
    ensures Run(op, m, Begin(start), [Go, Crash, Go, Go]) == Node(Without(start, op), Running, false, false, [])
  {
    assert Mines(op);
    hide Restores, RollbackOf, Discarded, Finalized, Cancelled, Repeats;
    var start' := Without(start, op);
    var down := Node(After(start, op, m, 1), Down, false, false, []);
    var back := After(start', op, m, 1);
    RunsTo(start, op, m, 1);
    assert Gos(1) == [Go] && [Go] + [Crash, Go, Go] == [Go, Crash, Go, Go];
    RunConcat(op, m, Begin(start), [Go], [Crash, Go, Go]);
    CrashAndGo(op, m, Run(op, m, Begin(start), [Go]));
    StageFacts(start, op, m, 1);
    DiscardTakesStored(start, op, m, 1);
    assert Recovered(down.db) == Recovery(back, Halfway);
    WithoutIsPrepared(start, op, m);
    StageFacts(start', op, m, 1);
    Stages(start', op, m);
    CancelUndoes(start', op);
    HalfwayIsUndone(op, m, down);
    hide Run, Recovered, After, Prepared, Without;
  }

  /** A mining of block 1 on the genesis block while block 1 is stored already. */
  const OLD: Hash := Some(Genesis)
  const NEW: Hash := Some(Child(Genesis, 1, Mined, Payload([], 0), None, None))
  const REMINED: Db := map[HeadKey := HashValue(OLD), BlockKey(NEW) := BlockValue(1, [])]
  const REMINING := Operation(METADATA_FORMAT, Head(OLD, NEW, true), 1, [], [], [], [])
  const REMINE := Mutation(BlockValue(1, []), map[HeadKey := HashValue(NEW)], {})

  /** Crashed right after its journal record, it loses the stored block. */
  lemma CrashCanDeleteStoredBlock()
    ensures Prepared(REMINED, REMINING, REMINE) && BlockKey(NEW) in REMINED
    ensures Run(REMINING, REMINE, Begin(REMINED), [Go, Crash, Go, Go]) ==
            Node(map[HeadKey := HashValue(OLD)], Running, false, false, [])
  {
    assert Restores(REMINED, REMINING, REMINE) by {
      assert StaleLookups(Without(REMINED, REMINING), [], 1) == {};
      assert Repeats(Without(REMINED, REMINING), REMINING);
    }
    CrashTakesStored(REMINED, REMINING, REMINE);
    assert Without(REMINED, REMINING) == map[HeadKey := HashValue(OLD)];
    hide Run;
  }
}
