/** Every write of the node through its commit: the database stands for the old state before it and for the new state
after it. */
module Commits {
  import opened Prelude
  import opened BlockTree
  import opened RequestQueue
  import opened Reconcile
  import opened Taint
  import opened NodeState
  import opened NodeInvariant
  import opened NodeSteps
  import opened EventLog
  import opened Schema
  import opened Persistence
  import J = Journal

  // ----- The commit of a write ------------------------------------------------------------------------------

  datatype Commit = NoCommit | Single(batch: J.Batch) | Journaled(op: J.Operation)

  function News(s: State, s': State): seq<Event> {
    if |s.published| <= |s'.published| then s'.published[|s.published|..] else []
  }

  /** A write under way on a database: the states before and after it, and what its commit adds of its own. */
  datatype Write = Write(db: J.Db, before: State, log: Log, step: Step, after: State, extras: Extras)

  ghost function Prints(w: Write): Footprint {
    FootprintOf(w.before, w.step, w.after)
  }

  /** The node accepts the write: neither the step nor the event log refuses it. */
  ghost predicate Accepts(cfg: Config, w: Write) {
    && ValidConfig(cfg) && Try(cfg, w.before, w.step) == Some(w.after)
    && PlanOf(w.log, News(w.before, w.after)).Some? && GoodExtras(w.extras, Prints(w).dropped)
  }

  function LogAfter(w: Write): Log {
    Publish(w.log, News(w.before, w.after))
  }

  ghost function BatchOf(w: Write): J.Batch
    requires PlanOf(w.log, News(w.before, w.after)).Some?
  {
    var plan := PlanOf(w.log, News(w.before, w.after)).value;
    J.Batch(PutsOf(w.after, Prints(w), w.extras, plan), DeletesOf(w.extras, w.log, plan))
  }

  /** How a write is committed. */
  ghost function CommitOf(w: Write): Commit
    requires PlanOf(w.log, News(w.before, w.after)).Some?
  {
    var s, s', batch := w.before, w.after, BatchOf(w);
    var executed := w.extras.executed;
    var rollback := J.RollbackOf(w.db, executed);
    if Prints(w).names == [] then NoCommit
    else
      match w.step
      case DoMine(_, _) =>
        Journaled(J.Operation(J.METADATA_FORMAT, J.Head(Some(s.head), Some(s'.head), true), Number(s'.head), executed,
                              rollback, batch.puts, batch.deletes))
      case DoMineBranch(name, _) =>
        var b := if name in s'.branches then s'.branches[name].head else Genesis;
        Journaled(J.Operation(J.METADATA_FORMAT, J.BranchBlock(Some(b)), Number(b), executed, rollback,
                              batch.puts, batch.deletes))
      case DoSwitchBranch(_) => Journaled(SwitchOperation(s, s', batch.puts, batch.deletes))
      case DoRevert(_) => Journaled(SwitchOperation(s, s', batch.puts, batch.deletes))
      case DoRestore(_) => Journaled(SwitchOperation(s, s', batch.puts, batch.deletes))
      case _ => Single(batch)
  }

  function SwitchOperation(s: State, s': State, puts: seq<J.Entry>, deletes: seq<Name>): J.Operation {
    J.Operation(J.METADATA_FORMAT, J.Head(Some(s.head), Some(s'.head), false), 0, [], [], puts, deletes)
  }

  /** The mutation stores the block as its hash says, and the chain library makes the new head canonical. */
  ghost predicate GoodMutation(w: Write, op: J.Operation, m: J.Mutation) {
    && J.MovesChain(m)
    && (J.Stores(op) ==> J.Target(op).Some? && m.block == BlockOf(J.Target(op).value))
    && (op.kind.Head? ==>
          && J.HeadKey in m.moved && m.moved[J.HeadKey] == J.HashValue(Some(w.after.head)) && J.HeadKey !in m.dropped
          && ChainOk(J.Moved(w.db, m), w.after.head)
          && (w.after.head == w.before.head ==> J.Moved(w.db, m) == w.db && m.dropped == {}))
  }

  // ----- What a step changes of the chain -------------------------------------------------------------------

  /** The block a step stores, if it does. */
  function StoredBy(step: Step, s': State): set<Block> {
    match step
    case DoMine(_, _) => {s'.head}
    case DoMineBranch(name, _) => if name in s'.branches then {s'.branches[name].head} else {}
    case _ => {}
  }

  predicate MovesHead(step: Step) {
    step.DoMine? || step.DoSwitchBranch? || step.DoRevert? || step.DoRestore?
  }

  ghost predicate Shaped(s: State, step: Step, s': State) {
    && s'.stored == s.stored + StoredBy(step, s')
    && (!MovesHead(step) ==> s'.head == s.head)
    && (step.DoMine? ==> s'.head.Child? && s'.head.parent == s.head)
    && (step.DoMineBranch? ==> step.name in s'.branches)
    && (FootprintOf(s, step, s').names == [] ==> s'.head == s.head && s'.stored == s.stored && News(s, s') == [])
    && s'.published == s.published + News(s, s') && (!step.DoAddRequest? ==> s'.issued == s.issued)
  }

  lemma NewsOf(s: State, s': State, events: seq<Event>)
    requires s'.published == s.published + events
    ensures News(s, s') == events
  {
  }

  lemma SwitchedPublishes(s: State, target: Block, targetSlot: nat, queue: Queue)
    ensures Switched(s, target, targetSlot, queue).published == s.published + SwitchEvents(s.head, target, targetSlot)
  {
    hide Above, Lca, Dropped, Entered, Kept, SwitchEvents;
  }

  lemma SwitchIsShaped(s: State, target: Block, targetSlot: nat)
    requires SwitchCanonical(s, target, targetSlot).Some?
    ensures var s' := SwitchCanonical(s, target, targetSlot).value;
            && s'.stored == s.stored && s'.published == s.published + News(s, s') && s'.issued == s.issued
            && (SwitchFootprint(s, s').names == [] ==> s' == s)
  {
    hide Above, Lca, Dropped, SwitchEvents, Switched, Reconciled, ValidQueue;
    SwitchFrame(s, target, targetSlot);
    var s' := SwitchCanonical(s, target, targetSlot).value;
    if s.head == target && s.slot == targetSlot {
      NewsOf(s, s', []);
    } else {
      var c := Lca(s.head, target);
      var queue := Reconciled(s.records, s.queue, Above(s.head, c), Above(target, c));
      SwitchedPublishes(s, target, targetSlot, queue.value);
      NewsOf(s, s', SwitchEvents(s.head, target, targetSlot));
    }
  }

  lemma ClockIsShaped(cfg: Config, s: State, step: Step)
    requires ValidConfig(cfg) && Try(cfg, s, step).Some? && (step.DoMissSlots? || step.DoResume?)
    ensures Shaped(s, step, Try(cfg, s, step).value)
  {
    hide CanBuildAt, ResolveAt, TransitionEvents, MissedEvents, FinalizedBetween;
    var s' := Try(cfg, s, step).value;
    match step
    case DoMissSlots(count) =>
      if count > 0 {
        NewsOf(s, s', MissedEvents(s.slot, count) + FinalizedBetween(cfg, s, s.slot, s.slot + count));
      }
    case DoResume =>
      if s.paused {
        NewsOf(s, s', TransitionEvents(cfg, ResolveAt(cfg, s, Min(s.slot, s.finalitySlot)), ResolveAt(cfg, s, s.slot)));
      }
  }

  lemma QuietIsShaped(cfg: Config, s: State, step: Step)
    requires ValidConfig(cfg) && Try(cfg, s, step).Some?
    requires !MovesHead(step) && !step.DoMineBranch? && !step.DoMissSlots? && !step.DoResume?
    ensures Shaped(s, step, Try(cfg, s, step).value)
  {
    hide CanBuildAt, ResolveAt, Enqueue, ValidQueue, SafetyOf, Chain, ValidConfig, Finalized,
         RuntimeMetadataValid, RequestMetadataValid, ControlMetadataValid;
    NewsOf(s, Try(cfg, s, step).value, []);
  }

  lemma MineIsShaped(cfg: Config, s: State, kind: Kind, built: Built)
    requires ValidConfig(cfg) && NodeState.Mine(cfg, s, kind, built).Some?
    ensures Shaped(s, DoMine(kind, built), NodeState.Mine(cfg, s, kind, built).value)
  {
    hide Prepare, CanBuildAt, ValidQueue, ValidRecord, SafetyForChild, TaintSession, FinalizedBetween, SafetyOf,
         UnsafeReasons;
    var s' := NodeState.Mine(cfg, s, kind, built).value;
    NewsOf(s, s', [BlockEvent(s'.head.slot, s'.head, false, kind.Override?)] +
                  FinalizedBetween(cfg, s, s.slot, s'.head.slot));
    MinedNamesAre(s'.head, Timeline);
  }

  lemma StepIsShaped(cfg: Config, s: State, step: Step)
    requires ValidConfig(cfg) && Try(cfg, s, step).Some?
    ensures Shaped(s, step, Try(cfg, s, step).value)
  {
    hide ValidConfig, CanBuildAt, SwitchFootprint, SwitchCanonical, ResolveAt, NodeState.Mine, Lca, Chain,
         NodeState.MineBranch, AddRequest, CreateBranch, MissSlots, Pause, Resume, Checkpoint, Snapshot, Restart,
         MinedNames, SafetyOf;
    var s' := Try(cfg, s, step).value;
    match step
    case DoMine(kind, built) => MineIsShaped(cfg, s, kind, built);
    case DoMineBranch(name, built) =>
      BranchChangesThese(cfg, s, name, built);
      NewsOf(s, s', []);
    case DoSwitchBranch(name) => SwitchIsShaped(s, s.branches[name].head, SlotOf(s.branches[name].head));
    case DoRevert(id) => RevertIsShaped(s, id);
    case DoRestore(name) => SwitchIsShaped(s, s.checkpoints[name].block, s.checkpoints[name].slot);
    case DoMissSlots(_) => ClockIsShaped(cfg, s, step);
    case DoResume => ClockIsShaped(cfg, s, step);
    case _ => QuietIsShaped(cfg, s, step);
  }

  lemma RevertIsShaped(s: State, id: nat)
    requires Revert(s, id).Some?
    ensures Shaped(s, DoRevert(id), Revert(s, id).value)
  {
    hide SwitchCanonical, Lca, Above, Dropped;
    var s' := Revert(s, id).value;
    if id in s.snapshots && !s.snapshots[id].used {
      SwitchIsShaped(s, s.snapshots[id].block, s.snapshots[id].slot);
    } else {
      NewsOf(s, s', []);
    }
  }

  /** A write that began, as far as its commit depends on it. */
  ghost predicate Ready(w: Write) {
    && TreeInv(w.before) && Represents(w.db, w.before, w.log)
    && Shaped(w.before, w.step, w.after) && Follows(w.before, w.after, Prints(w))
    && PlanOf(w.log, News(w.before, w.after)).Some? && GoodExtras(w.extras, Prints(w).dropped)
  }

  lemma AcceptedIsReady(cfg: Config, w: Write)
    requires Accepts(cfg, w) && Inv(w.before) && Represents(w.db, w.before, w.log)
    ensures Ready(w)
  {
    hide Try, ValidConfig, Shaped, Follows, Represents, GoodExtras, FootprintOf, PlanOf, TreeInv, IndexInv, SafetyInv,
         PointsInv, RequestInv, EventInv;
    StepIsShaped(cfg, w.before, w.step);
    StepFollows(cfg, w.before, w.step);
  }

  // ----- The database after a commit ------------------------------------------------------------------------

  lemma ChainFrame(a: J.Db, b: J.Db, head: Block)
    requires ChainOk(a, head) && forall k: J.Key :: J.ChainKey(k) ==> J.Agree(b, a, k)
    ensures ChainOk(b, head)
  {
    hide Number, Chain;
    assert J.ChainKey(J.HeadKey);
    assert forall i: nat :: J.ChainKey(J.CanonKey(i));
    assert forall t: nat :: J.ChainKey(J.LookupKey(t));
  }

  lemma BlocksFrame(a: J.Db, b: J.Db, stored: set<Block>)
    requires BlocksOk(a, stored) && forall k: J.Key :: k.BlockKey? ==> J.Agree(b, a, k)
    ensures BlocksOk(b, stored)
  {
    assert forall h: J.Hash :: J.BlockKey(h).BlockKey?;
  }

  lemma OneMoreBlock(db: J.Db, stored: set<Block>, b: Block)
    requires BlocksOk(db, stored)
    ensures BlocksOk(db[J.BlockKey(Some(b)) := BlockOf(b)], stored + {b})
  {
    hide BlockOf;
  }

  /** What a batch with its execution data leaves under a name. */
  predicate DataAfter(db: J.Db, db': J.Db, executed: seq<J.Entry>, batch: J.Batch, n: Name) {
    var k, put, run := J.DataKey(n), J.LastPut(batch.puts, n), J.LastPut(executed, n);
    var last := if put.Some? then put else run;
    if n in batch.deletes then k !in db'
    else if last.Some? then k in db' && db'[k] == J.DataValue(last.value)
    else J.Agree(db', db, k)
  }

  /** One name: a batch that carries the metadata leaves it right. */
  lemma NameAfter(w: Write, db': J.Db, executed: seq<J.Entry>, n: Name)
    requires PlanOf(w.log, News(w.before, w.after)).Some? && GoodExtras(w.extras, Prints(w).dropped)
    requires Follows(w.before, w.after, Prints(w))
    requires MetaOk(w.db, w.before, w.log) && NodesOk(w.db)
    requires executed == [] || executed == w.extras.executed
    requires DataAfter(w.db, db', executed, BatchOf(w), n)
    ensures J.DataKey(n) in db' ==> db'[J.DataKey(n)].DataValue?
    ensures Governed(n) ==> Read(db', n) == Expected(w.after, LogAfter(w), n)
    ensures n.StateNode? && J.DataKey(n) in db' ==> db'[J.DataKey(n)] == J.DataValue(NodeData(n.hash))
  {
    hide Follows, Expected, Publish, PutsOf, DeletesOf, J.LastPut, Prints;
    BatchCarries(w.before, w.after, Prints(w), w.extras, w.log, News(w.before, w.after), n);
    if Governed(n) { NoPut(executed, n); }
    if n.StateNode? && J.LastPut(executed, n).Some? { LastPutIsIn(executed, n); }
    PendingIsKnown(w.after, LogAfter(w));
  }

  lemma PendingIsKnown(s: State, log: Log)
    ensures Expected(s, log, Pending).Some?
  {
  }

  lemma MetaAfter(w: Write, db': J.Db, executed: seq<J.Entry>)
    requires PlanOf(w.log, News(w.before, w.after)).Some? && GoodExtras(w.extras, Prints(w).dropped)
    requires Follows(w.before, w.after, Prints(w))
    requires MetaOk(w.db, w.before, w.log) && NodesOk(w.db)
    requires executed == [] || executed == w.extras.executed
    requires forall n: Name :: DataAfter(w.db, db', executed, BatchOf(w), n)
    ensures MetaOk(db', w.after, LogAfter(w)) && NodesOk(db')
  {
    hide Follows, Expected, Publish, BatchOf, J.LastPut, Read;
    forall n: Name
      ensures J.DataKey(n) in db' ==> db'[J.DataKey(n)].DataValue?
      ensures Governed(n) ==> Read(db', n) == Expected(w.after, LogAfter(w), n)
      ensures n.StateNode? && J.DataKey(n) in db' ==> db'[J.DataKey(n)] == J.DataValue(NodeData(n.hash))
    {
      NameAfter(w, db', executed, n);
    }
    forall h: nat | J.DataKey(StateNode(h)) in db'
      ensures db'[J.DataKey(StateNode(h))] == J.DataValue(NodeData(h))
    {
      assert StateNode(h).StateNode?;
    }
  }

  /** What the journal needs to know about the operation. */
  lemma OperationIsPrepared(w: Write, m: J.Mutation)
    requires Ready(w) && CommitOf(w).Journaled? && GoodMutation(w, CommitOf(w).op, m)
    ensures J.Prepared(w.db, CommitOf(w).op, m)
  {
    hide TreeInv, MetaOk, NodesOk, BatchOf, Prints, J.RollbackOf, GoodExtras, Follows, Exact, FootprintOf;
    assert J.RollbackOf(w.db, []) == [] by { NoRollback(w.db); }
    assert J.JournalKey !in m.moved.Keys + m.dropped;
    if w.step.DoMine? { NumberIsLarger(w.before.head, w.after.head); }
  }

  lemma NoRollback(db: J.Db)
    ensures J.RollbackOf(db, []) == []
  {
  }

  lemma NumberIsLarger(parent: Block, b: Block)
    requires b.Child? && b.parent == parent
    ensures b != parent && Number(b) == Number(parent) + 1
  {
  }

  /** A finished operation leaves the database of the new state. */
  lemma DoneRepresents(w: Write, m: J.Mutation)
    requires Ready(w) && CommitOf(w).Journaled? && GoodMutation(w, CommitOf(w).op, m)
    ensures J.Prepared(w.db, CommitOf(w).op, m)
    ensures Represents(J.Done(w.db, CommitOf(w).op, m), w.after, LogAfter(w))
  {
    var op := CommitOf(w).op;
    var done := J.Done(w.db, op, m);
    hide TreeInv, J.Done, J.Prepared, Follows, Exact, MetaOk, NodesOk, ChainOk, BlocksOk, FootprintOf, BatchOf, Publish;
    OperationIsPrepared(w, m);
    DoneChain(w, op, m);
    DoneMeta(w, op, m);
    PublishIsExact(w.log, w.before.published, News(w.before, w.after));
    J.DoneMeaning(w.db, op, m, J.JournalKey);
  }

  lemma DoneChain(w: Write, op: J.Operation, m: J.Mutation)
    requires PlanOf(w.log, News(w.before, w.after)).Some? && CommitOf(w) == Journaled(op)
    requires Shaped(w.before, w.step, w.after) && J.Prepared(w.db, op, m) && GoodMutation(w, op, m)
    requires ChainOk(w.db, w.before.head) && BlocksOk(w.db, w.before.stored)
    ensures var done := J.Done(w.db, op, m); ChainOk(done, w.after.head) && BlocksOk(done, w.after.stored)
  {
    hide J.Done, J.Prepared, ChainOk, BlocksOk, BatchOf, Prints, J.RollbackOf, J.Moved, FootprintOf;
    var done := J.Done(w.db, op, m);
    forall k: J.Key
      ensures J.ChainKey(k) ==> J.Agree(done, if op.kind.Head? then J.Moved(w.db, m) else w.db, k)
      ensures k.BlockKey? ==> J.Agree(done, if J.Stores(op) then J.Persisted(w.db, op, m) else w.db, k)
    {
      J.DoneMeaning(w.db, op, m, k);
    }
    ChainFrame(if op.kind.Head? then J.Moved(w.db, m) else w.db, done, w.after.head);
    if J.Stores(op) {
      OneMoreBlock(w.db, w.before.stored, J.Target(op).value);
      BlocksFrame(J.Persisted(w.db, op, m), done, w.after.stored);
    } else {
      assert w.after.stored == w.before.stored;
      BlocksFrame(w.db, done, w.after.stored);
    }
  }

  lemma DoneMeta(w: Write, op: J.Operation, m: J.Mutation)
    requires PlanOf(w.log, News(w.before, w.after)).Some? && CommitOf(w) == Journaled(op)
    requires GoodExtras(w.extras, Prints(w).dropped) && Follows(w.before, w.after, Prints(w))
    requires J.Prepared(w.db, op, m) && J.MovesChain(m)
    requires MetaOk(w.db, w.before, w.log) && NodesOk(w.db)
    ensures var done := J.Done(w.db, op, m); MetaOk(done, w.after, LogAfter(w)) && NodesOk(done)
  {
    hide J.Done, J.Prepared, MetaOk, NodesOk, BatchOf, Prints, J.RollbackOf, FootprintOf, GoodExtras, Follows, LogAfter;
    var done := J.Done(w.db, op, m);
    forall n: Name ensures DataAfter(w.db, done, op.executionPuts, BatchOf(w), n) {
      J.DoneMeaning(w.db, op, m, J.DataKey(n));
    }
    MetaAfter(w, done, op.executionPuts);
  }

  /** A batch that landed leaves the database of the new state. */
  lemma LandRepresents(w: Write)
    requires Ready(w) && CommitOf(w).Single?
    ensures Represents(J.Land(w.db, CommitOf(w).batch), w.after, LogAfter(w))
  {
    hide TreeInv, J.Land, Follows, Exact, MetaOk, NodesOk, ChainOk, BlocksOk, FootprintOf, BatchOf, Publish;
    var batch := BatchOf(w);
    var landed := J.Land(w.db, batch);
    forall k: J.Key ensures !k.DataKey? ==> J.Agree(landed, w.db, k) {
      J.LandMeaning(w.db, batch, k);
    }
    forall n: Name ensures DataAfter(w.db, landed, [], batch, n) {
      J.LandMeaning(w.db, batch, J.DataKey(n));
    }
    assert J.Agree(landed, w.db, J.JournalKey);
    assert w.after.stored == w.before.stored;
    ChainFrame(w.db, landed, w.after.head);
    BlocksFrame(w.db, landed, w.after.stored);
    MetaAfter(w, landed, []);
    PublishIsExact(w.log, w.before.published, News(w.before, w.after));
  }

  /** A write that commits nothing changes nothing the database knows about. */
  lemma QuietRepresents(w: Write)
    requires Ready(w) && CommitOf(w).NoCommit?
    ensures Represents(w.db, w.after, w.log)
  {
    hide TreeInv, Exact, NodesOk, ChainOk, BlocksOk, BatchOf, Expected, GoodExtras, Follows, FootprintOf;
    assert w.after.published == w.before.published + [] == w.before.published;
    forall n: Name | Governed(n) ensures Expected(w.after, w.log, n) == Expected(w.before, w.log, n) {
      NothingPrinted(w, n);
    }
  }

  lemma NothingPrinted(w: Write, n: Name)
    requires Follows(w.before, w.after, Prints(w)) && Prints(w).names == [] && Governed(n)
    ensures Expected(w.after, w.log, n) == Expected(w.before, w.log, n)
  {
  }

  // ----- Safe writes ----------------------------------------------------------------------------------------

  /** State nodes stand under their hashes, so writing one again repeats what is there. */
  lemma ExecutionRepeats(db: J.Db, op: J.Operation)
    requires NodesOk(db) && forall e :: e in op.executionPuts ==> e.name.StateNode? && e.data == NodeData(e.name.hash)
    ensures J.Repeats(db, op)
  {
    hide J.PutAll, J.LastPut;
    J.PutAllAt(db, op.executionPuts);
    forall k | k in db
      ensures k in J.PutAll(db, op.executionPuts) && J.PutAll(db, op.executionPuts)[k] == db[k]
    {
      if k.DataKey? {
        J.PutAllIsLastPut(db, op.executionPuts, k.name);
        if J.LastPut(op.executionPuts, k.name).Some? { LastPutIsIn(op.executionPuts, k.name); }
      }
    }
  }

  /** The journal makes a write all or nothing exactly unless it mines a block that is stored already: a switch and a
      branch block always are. */
  lemma SafeIffFresh(w: Write, m: J.Mutation)
    requires Ready(w) && CommitOf(w).Journaled? && GoodMutation(w, CommitOf(w).op, m)
    ensures J.Safe(w.db, CommitOf(w).op, m) <==> (w.step.DoMine? ==> w.after.head !in w.before.stored)
  {
    var op := CommitOf(w).op;
    hide BatchOf, Follows, Exact, J.Repeats, MetaOk, J.RollbackOf, FootprintOf, ChainOk, NodesOk, J.Unnamed,
         J.StaleLookups, TreeInv;
    if J.Stores(op) {
      ExecutionRepeats(w.db, op);
      if w.step.DoMine? {
        NumberIsLarger(w.before.head, w.after.head);
        FreshHeight(w.db, w.before.head, op, m.block.txs);
      } else {
        Unnamed(w.db, w.before, op, J.Target(op).value);
      }
    }
  }

  lemma FreshHeight(db: J.Db, head: Block, op: J.Operation, txs: seq<nat>)
    requires ChainOk(db, head) && op.targetNumber == Number(head) + 1
    ensures J.Unnamed(db, op) && J.StaleLookups(db, txs, op.targetNumber) == {}
  {
    hide Number, Chain;
  }

  lemma Unnamed(db: J.Db, s: State, op: J.Operation, b: Block)
    requires TreeInv(s) && ChainOk(db, s.head) && J.Target(op) == Some(b) && op.targetNumber == Number(b)
    ensures b in s.stored || J.Unnamed(db, op)
  {
    if Number(b) <= Number(s.head) {
      AncestorOnChain(Chain(s.head)[Number(b)], s.head);
      AncestorsAreStored(s, s.head);
    }
  }
}
