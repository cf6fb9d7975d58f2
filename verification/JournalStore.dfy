/** Commits and recovery in the source's form: batches written in order, and a sticky error that ends all writes. */
module JournalStore {
  import opened Prelude
  import opened Journal
  import Schema

  /** The puts of a batch in order. */
  method WriteEntries(db: Db, entries: seq<Entry>) returns (r: Db)
    ensures r == PutAll(db, entries)
  {
    r := db;
    for i := 0 to |entries|
      invariant r == PutAll(db, entries[..i])
    {
      assert entries[..i + 1][..i] == entries[..i];
      r := r[DataKey(entries[i].name) := DataValue(entries[i].data)];
    }
    assert entries[..|entries|] == entries;
  }

  method DeleteNames(db: Db, names: seq<Name>) returns (r: Db)
    ensures r == db - DataKeys(names)
  {
    r := db;
    assert db - DataKeys(names[..0]) == db by { assert names[..0] == []; OneDataKey(Schema.Timeline); }
    for i := 0 to |names|
      invariant r == db - DataKeys(names[..i])
    {
      assert names[..i + 1] == names[..i] + [names[i]];
      DataKeysConcat(names[..i], [names[i]]);
      OneDataKey(names[i]);
      r := r - {DataKey(names[i])};
    }
    assert names[..|names|] == names;
  }

  /** `executionPutsForJournal`: the keys to delete on rollback are those with no value yet. */
  method ExecutionPutsForJournal(db: Db, puts: seq<Entry>) returns (rollback: seq<Name>)
    ensures rollback == RollbackOf(db, puts)
    ensures DataKeys(rollback) == PutAll(db, puts).Keys - db.Keys
  {
    rollback := [];
    for i := 0 to |puts|
      invariant rollback == RollbackOf(db, puts[..i])
    {
      assert puts[..i + 1][..i] == puts[..i];
      if DataKey(puts[i].name) !in db { rollback := rollback + [puts[i].name]; }
    }
    assert puts[..|puts|] == puts;
    RollbackIsAdded(db, puts);
  }

  method FinalizeOperation(db: Db, op: Operation) returns (r: Db)
    ensures r == Finalized(db, op)
  {
    r := WriteEntries(db, op.executionPuts);
    r := WriteEntries(r, op.puts);
    r := DeleteNames(r, op.deletes);
    r := r - {JournalKey};
  }

  method CancelOperation(db: Db, op: Operation) returns (r: Db)
    ensures r == Cancelled(db, op)
  {
    r := DeleteNames(db, op.rollbackDeletes);
    r := r - {JournalKey};
  }

  method DiscardTarget(db: Db, target: Hash, number: nat) returns (r: Db)
    ensures r == Discarded(db, target, number)
  {
    var txs := StoredTxs(db, target, number);
    var stale: set<Key> := {};
    for i := 0 to |txs|
      invariant forall k :: k in stale <==>
                  exists j :: 0 <= j < i && k == LookupKey(txs[j]) && k in db && db[k] == NumberValue(number)
    {
      if LookupKey(txs[i]) in db && db[LookupKey(txs[i])] == NumberValue(number) {
        stale := stale + {LookupKey(txs[i])};
      }
    }
    assert stale == StaleLookups(db, txs, number);
    r := db - stale;
    if CanonKey(number) in db && db[CanonKey(number)] == HashValue(target) { r := r - {CanonKey(number)}; }
    r := r - {BlockKey(target)};
  }

  class Store {
    var db: Db
    var writeErr: bool

    /** A process starts with whatever is on disk and may write. */
    constructor (db: Db)
      ensures this.db == db && !writeErr
    {
      this.db, writeErr := db, false;
    }

    method DisableWrites()
      modifies `writeErr
      ensures writeErr
    {
      writeErr := true;
    }

    /** `commitPrepared`, failing once `failAfter` steps are durable if that is given. A disabled node and a pending
        journal change nothing; a failure leaves exactly the steps done so far and disables all later writes. */
    method CommitPrepared(op: Operation, m: Mutation, failAfter: Option<nat>) returns (ok: bool)
      requires !op.kind.Unsupported?
      modifies this
      ensures old(writeErr) || JournalKey in old(db) ==> !ok && db == old(db) && writeErr == old(writeErr)
      ensures !old(writeErr) && JournalKey !in old(db) ==>
                var written := op.(version := METADATA_FORMAT);
                var steps := if failAfter.Some? then Min(failAfter.value, Steps(op)) else Steps(op);
                && db == After(old(db), written, m, steps)
                && (ok <==> failAfter.None? || failAfter.value > Steps(op)) && writeErr == !ok
                && Run(written, m, Begin(old(db)), if ok then Gos(steps + 1) else Gos(steps) + [Fail]) ==
                   Node(db, Running, writeErr, ok, [])
    {
      if writeErr || JournalKey in db { return false; }
      var written := op.(version := METADATA_FORMAT);
      ghost var start := db;
      hide Finalized, PutAll, Moved, Persisted, Run, Gos, After;
      RunsToDone(start, written, m);
      RunsToFailure(start, written, m, if failAfter.Some? then Min(failAfter.value, Steps(op)) else Steps(op));
      NextStage(start, written, m, 0);
      if failAfter == Some(0) { DisableWrites(); return false; }
      db := db[JournalKey := Record(written)];
      assert db == After(start, written, m, 1) by { NextStage(start, written, m, 0); }
      if failAfter == Some(1) { DisableWrites(); return false; }
      if Stores(op) {
        var put := WriteEntries(db, op.executionPuts);
        db := put;
        assert db == After(start, written, m, 2) by { NextStage(start, written, m, 1); }
        if failAfter == Some(2) { DisableWrites(); return false; }
        ghost var before := db;
        db := Persisted(db, op, m);
        NextStage(start, written, m, 2);
        SameTarget(before, op, written, m);
        assert db == After(start, written, m, 3);
        if failAfter == Some(3) { DisableWrites(); return false; }
      }
      if op.kind.Head? {
        db := Moved(db, m);
        assert db == After(start, written, m, Steps(op) - 1) by { NextStage(start, written, m, Steps(op) - 2); }
        if failAfter == Some(Steps(op) - 1) { DisableWrites(); return false; }
      }
      var final := FinalizeOperation(db, written);
      db := final;
      assert db == After(start, written, m, Steps(op)) by { NextStage(start, written, m, Steps(op) - 1); }
      if failAfter == Some(Steps(op)) { DisableWrites(); return false; }
      return true;
    }

    /** `commitAuxiliary`: one batch, puts then deletes. */
    method CommitAuxiliary(puts: seq<Entry>, deletes: seq<Name>, fails: bool) returns (ok: bool)
      modifies this
      ensures var n := Committed(Node(old(db), Running, old(writeErr), false, []), Batch(puts, deletes), fails);
              db == n.db && writeErr == n.writeErr && n.landed == if ok then [Batch(puts, deletes)] else []
      ensures ok <==> !old(writeErr) && !fails
    {
      if writeErr { return false; }
      if fails { DisableWrites(); return false; }
      var put := WriteEntries(db, puts);
      put := DeleteNames(put, deletes);
      db := put;
      return true;
    }

    /** `recoverPreparedOperation` at startup, dying between its two batches if `dies`. */
    method Recover(dies: bool) returns (ok: bool)
      modifies this
      ensures var r := Recovered(old(db));
              if r.outcome.Halfway? && !dies then
                && ok && JournalKey in old(db) && old(db)[JournalKey].Record?
                && db == Cancelled(r.db, old(db)[JournalKey].operation)
              else db == r.db && (ok <==> !r.outcome.Halfway? && !r.outcome.Refused?)
      ensures writeErr == old(writeErr)
    {
      hide Finalized, Cancelled, Discarded;
      if JournalKey !in db { return true; }
      if !db[JournalKey].Record? { return false; }
      var op := db[JournalKey].operation;
      if op.version != METADATA_FORMAT || op.kind.Unsupported? { return false; }
      var finish, discard := false, false;
      if op.kind.Head? {
        if HeadKey !in db { return false; }
        finish := db[HeadKey] == HashValue(op.kind.newHead);
        if !finish && db[HeadKey] != HashValue(op.kind.oldHead) { return false; }
        discard := op.kind.discard;
      } else {
        finish := BlockKey(op.kind.target) in db;
        discard := op.kind.target != ZERO_HASH;
      }
      if finish {
        var final := FinalizeOperation(db, op);
        db := final;
        return true;
      }
      if discard {
        var cleared := DiscardTarget(db, Target(op), op.targetNumber);
        db := cleared;
        if dies { return false; }
      }
      var undone := CancelOperation(db, op);
      db := undone;
      return true;
    }
  }

  lemma NextStage(start: Db, op: Operation, m: Mutation, i: nat)
    ensures After(start, op, m, i + 1) == Durable(After(start, op, m, i), op, m, i + 1)
    ensures After(start, op, m, 0) == start
  {
    hide Durable;
  }

  lemma SameTarget(db: Db, op: Operation, written: Operation, m: Mutation)
    requires written == op.(version := METADATA_FORMAT)
    ensures Persisted(db, op, m) == Persisted(db, written, m)
  {
  }
}
