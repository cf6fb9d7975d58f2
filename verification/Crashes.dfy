/** Crashes in the middle of a write: what the node comes back as. */
module Crashes {
  import opened Prelude
  import opened BlockTree
  import opened RequestQueue
  import opened Taint
  import opened NodeState
  import opened NodeInvariant
  import opened NodeRuns
  import opened EventLog
  import opened Schema
  import opened Persistence
  import opened Commits
  import J = Journal

  // ----- The first start ------------------------------------------------------------------------------------

  /** What the first start writes. */
  const FRESH: J.Db := map[
    J.HeadKey := J.HashValue(Some(Genesis)), J.BlockKey(Some(Genesis)) := J.BlockValue(0, []),
    J.CanonKey(0) := J.HashValue(Some(Genesis)),
    J.DataKey(Timeline) := J.DataValue(TimelineData(0, false, 0)),
    J.DataKey(Session) := J.DataValue(SafetyData(CLEAN)),
    J.DataKey(CanonicalSlot(0)) := J.DataValue(BlockData(Genesis)),
    J.DataKey(BlockSlot(Genesis)) := J.DataValue(SlotData(0)),
    J.DataKey(BlockSafety(Genesis)) := J.DataValue(SafetyData(CLEAN))]

  lemma FreshRepresents(capacity: nat)
    requires capacity > 0
    ensures Represents(FRESH, INITIAL, Log(capacity, 1, [], map[]))
  {
    EmptyIsExact(capacity);
    FreshMeta(Log(capacity, 1, [], map[]));
    FreshChain();
    hide Exact, ChainOk, BlocksOk, MetaOk, NodesOk;
  }

  lemma FreshChain()
    ensures ChainOk(FRESH, Genesis) && BlocksOk(FRESH, {Genesis})
  {
    assert Chain(Genesis) == [Genesis] && Number(Genesis) == 0;
  }

  lemma FreshMeta(log: Log)
    requires log.disk == map[]
    ensures MetaOk(FRESH, INITIAL, log) && NodesOk(FRESH)
  {
  }

  // ----- Writes that are not cut ----------------------------------------------------------------------------

  /** The database after the commit. */
  ghost function Written(w: Write, m: J.Mutation): J.Db
    requires PlanOf(w.log, News(w.before, w.after)).Some?
  {
    match CommitOf(w)
    case NoCommit => w.db
    case Single(batch) => J.Land(w.db, batch)
    case Journaled(op) => J.Done(w.db, op, m)
  }

  ghost predicate GoodCommit(w: Write, m: J.Mutation) {
    PlanOf(w.log, News(w.before, w.after)).Some? &&
    (CommitOf(w).Journaled? ==> GoodMutation(w, CommitOf(w).op, m))
  }

  lemma PublishNothing(log: Log, all: seq<Event>)
    requires Exact(log, all)
    ensures Publish(log, []) == log
  {
    ExactIsConsecutive(log, all);
    NumberedNone(log.next);
    assert log.events + [] == log.events && Revisions([]) == {};
  }

  /** Every write takes the database of the state before it to that of the state after it. */
  lemma WriteIsPersisted(w: Write, m: J.Mutation)
    requires Ready(w) && GoodCommit(w, m)
    ensures Represents(Written(w, m), w.after, LogAfter(w))
  {
    hide Represents, Publish, TreeInv, Follows, GoodExtras, FootprintOf, BatchOf, J.Land, J.Done, GoodMutation, Shaped;
    match CommitOf(w)
    case NoCommit =>
      QuietRepresents(w);
      NoNews(w);
    case Single(_) => LandRepresents(w);
    case Journaled(_) => DoneRepresents(w, m);
  }

  lemma NoNews(w: Write)
    requires Ready(w) && CommitOf(w).NoCommit?
    ensures LogAfter(w) == w.log
  {
    hide TreeInv, Follows, GoodExtras, BatchOf, MetaOk, NodesOk, ChainOk, BlocksOk, Exact, Publish, FootprintOf;
    PublishNothing(w.log, w.before.published);
  }

  // ----- Cut writes -----------------------------------------------------------------------------------------

  /** No other commits: those are writes of their own. */
  predicate Alone(actions: seq<J.Action>) {
    forall i :: 0 <= i < |actions| ==> !actions[i].OtherCommit?
  }

  ghost function CutNode(w: Write, m: J.Mutation, actions: seq<J.Action>): J.Node
    requires PlanOf(w.log, News(w.before, w.after)).Some? && CommitOf(w).Journaled?
  {
    J.Run(CommitOf(w).op, m, J.Begin(w.db), actions)
  }

  /** The chain library can always do its part. */
  lemma SomeMutation(w: Write) returns (m: J.Mutation)
    requires Ready(w) && CommitOf(w).Journaled?
    ensures GoodCommit(w, m)
  {
    var op, head, target := CommitOf(w).op, w.before.head, w.after.head;
    ReadyStandsFor(w);
    OperationTarget(w);
    assert ChainOk(w.db, head) by { hide MetaOk, NodesOk, BlocksOk, Exact, Ready, CommitOf, ChainOk; }
    hide Ready, CommitOf, PlanOf, News, Represents, MoveTo, ChainOk, J.Moved, BlockOf;
    var block := if J.Target(op).Some? then BlockOf(J.Target(op).value) else BlockOf(Genesis);
    if target == head {
      m := J.Mutation(block, map[J.HeadKey := J.HashValue(Some(head))], {});
      StaysPut(w.db, head, m);
    } else {
      m := MoveTo(w.db, target, block);
      MoveToIsGood(w.db, head, target, block);
    }
  }

  lemma OperationTarget(w: Write)
    requires Ready(w) && CommitOf(w).Journaled?
    ensures J.Target(CommitOf(w).op).Some?
  {
    hide TreeInv, Follows, GoodExtras, FootprintOf, BatchOf, PlanOf, Represents, J.RollbackOf;
  }

  function MovedTo(target: Block): map<J.Key, J.Value> {
    var canonical := map k: J.Key | k in (set i | 0 <= i <= Number(target) :: J.CanonKey(i)) ::
      J.HashValue(Some(if k.CanonKey? && k.number <= Number(target) then Chain(target)[k.number] else target));
    canonical[J.HeadKey := J.HashValue(Some(target))]
  }

  function DroppedFor(db: J.Db, target: Block): set<J.Key> {
    set k | k in db &&
            ((k.CanonKey? && k.number > Number(target)) ||
             (k.LookupKey? && db[k].NumberValue? && db[k].number > Number(target)))
  }

  function MoveTo(db: J.Db, target: Block, block: J.Value): J.Mutation {
    J.Mutation(block, MovedTo(target), DroppedFor(db, target))
  }

  lemma MovedToAt(target: Block, k: J.Key)
    ensures k in MovedTo(target) <==> k.HeadKey? || (k.CanonKey? && k.number <= Number(target))
    ensures k.HeadKey? ==> MovedTo(target)[k] == J.HashValue(Some(target))
    ensures k.CanonKey? && k.number <= Number(target) ==>
              MovedTo(target)[k] == J.HashValue(Some(Chain(target)[k.number]))
  {
    hide Number, Chain;
  }

  lemma StaysPut(db: J.Db, head: Block, m: J.Mutation)
    requires ChainOk(db, head) && m.moved == map[J.HeadKey := J.HashValue(Some(head))] && m.dropped == {}
    ensures J.Moved(db, m) == db && J.MovesChain(m)
  {
    hide Number, Chain;
  }

  lemma MoveToIsGood(db: J.Db, head: Block, target: Block, block: J.Value)
    requires ChainOk(db, head)
    ensures var m := MoveTo(db, target, block);
            && J.MovesChain(m) && J.HeadKey in m.moved && m.moved[J.HeadKey] == J.HashValue(Some(target))
            && J.HeadKey !in m.dropped && ChainOk(J.Moved(db, m), target)
  {
    hide Number, Chain, MovedTo, ChainOk;
    var m := MoveTo(db, target, block);
    forall k: J.Key ensures k in m.moved.Keys + m.dropped ==> J.ChainKey(k) {
      MovedToAt(target, k);
    }
    MovedToAt(target, J.HeadKey);
    MoveToMoves(db, head, target, m);
  }

  lemma MoveToMoves(db: J.Db, head: Block, target: Block, m: J.Mutation)
    requires ChainOk(db, head) && m.moved == MovedTo(target) && m.dropped == DroppedFor(db, target)
    ensures ChainOk(J.Moved(db, m), target)
  {
    hide Number, Chain, MovedTo;
    var db' := J.Moved(db, m);
    MovedToAt(target, J.HeadKey);
    forall i: nat
      ensures J.CanonKey(i) in db' <==> i <= Number(target)
      ensures i <= Number(target) ==> db'[J.CanonKey(i)] == J.HashValue(Some(Chain(target)[i]))
    {
      MovedToAt(target, J.CanonKey(i));
    }
    forall t: nat | J.LookupKey(t) in db'
      ensures db'[J.LookupKey(t)].NumberValue? && db'[J.LookupKey(t)].number <= Number(target)
    {
      MovedToAt(target, J.LookupKey(t));
    }
  }

  lemma ReadyStandsFor(w: Write)
    requires Ready(w)
    ensures Represents(w.db, w.before, w.log) && PlanOf(w.log, News(w.before, w.after)).Some?
  {
  }

  /** However often a write is cut, and its recovery too: the node is as before the write, or as after it, and the
      latter if the write was reported as done. Only mining a block that is stored already is not covered. */
  lemma CutWrite(w: Write, m: J.Mutation, actions: seq<J.Action>)
    requires Ready(w) && CommitOf(w).Journaled? && GoodCommit(w, m) && Alone(actions)
    requires w.step.DoMine? ==> w.after.head !in w.before.stored
    ensures var n := CutNode(w, m, actions);
            && !n.phase.Stuck?
            && (J.Up(n) ==>
                  Represents(n.db, w.after, LogAfter(w)) || (!n.acked && Represents(n.db, w.before, w.log)))
  {
    var op := CommitOf(w).op;
    ReadyStandsFor(w);
    hide Ready, Represents, CommitOf, LogAfter, PlanOf, News, GoodMutation, J.Done, J.Run, J.Safe, J.Prepared;
    OperationIsPrepared(w, m);
    SafeIffFresh(w, m);
    J.SafeIsAtomic(w.db, op, m);
    DoneRepresents(w, m);
    J.RunsAlone(op, m, J.Begin(w.db), actions);
    J.LandNone(w.db);
    J.LandNone(J.Done(w.db, op, m));
  }

  /** The slot metadata names a block that is missing, which startup refuses. */
  ghost predicate NamesMissingBlock(db: J.Db) {
    exists b: Block :: J.DataKey(BlockSlot(b)) in db && J.BlockKey(Some(b)) !in db
  }

  /** A cut re-mining adds one more end: the block is gone and its metadata is not. */
  lemma CutRemine(w: Write, m: J.Mutation, actions: seq<J.Action>)
    requires Ready(w) && CommitOf(w).Journaled? && GoodCommit(w, m) && Alone(actions)
    requires w.step.DoMine? && w.after.head in w.before.stored
    ensures var n := CutNode(w, m, actions);
            && !n.phase.Stuck?
            && (J.Up(n) ==>
                  || Represents(n.db, w.after, LogAfter(w))
                  || (!n.acked && (Represents(n.db, w.before, w.log) || NamesMissingBlock(n.db))))
  {
    var op := CommitOf(w).op;
    RemineRestores(w, m);
    ReadyStandsFor(w);
    hide Ready, Represents, CommitOf, LogAfter, PlanOf, News, GoodMutation, J.Done, J.Run, J.Restores, J.Prepared,
         NamesMissingBlock, J.Without;
    J.StoredTargetRuns(w.db, op, m, actions);
    DoneRepresents(w, m);
    J.RunsAlone(op, m, J.Begin(w.db), actions);
    J.LandNone(w.db);
    J.LandNone(J.Without(w.db, op));
    J.LandNone(J.Done(w.db, op, m));
  }

  /** And that end is reached: by a crash right after the journal record. */
  lemma RemineCanLose(w: Write, m: J.Mutation)
    requires Ready(w) && CommitOf(w).Journaled? && GoodCommit(w, m)
    requires w.step.DoMine? && w.after.head in w.before.stored
    ensures var n := CutNode(w, m, [J.Go, J.Crash, J.Go, J.Go]); J.Up(n) && NamesMissingBlock(n.db)
  {
    RemineRestores(w, m);
    hide Ready, CommitOf, PlanOf, News, GoodMutation, J.Run, J.Restores, J.Prepared, NamesMissingBlock, J.Without;
    J.CrashTakesStored(w.db, CommitOf(w).op, m);
  }

  lemma RemineRestores(w: Write, m: J.Mutation)
    requires Ready(w) && CommitOf(w).Journaled? && GoodCommit(w, m)
    requires w.step.DoMine? && w.after.head in w.before.stored
    ensures J.Prepared(w.db, CommitOf(w).op, m) && J.Restores(w.db, CommitOf(w).op, m)
    ensures NamesMissingBlock(J.Without(w.db, CommitOf(w).op))
  {
    var op := CommitOf(w).op;
    OperationIsPrepared(w, m);
    hide Follows, Exact, BatchOf, FootprintOf, J.RollbackOf, J.Repeats, TreeInv, ChainOk, MetaOk, J.Prepared;
    NumberIsLarger(w.before.head, w.after.head);
    SafeWithout(w.db, w.before.head, op, m);
    StoredIsNamed(w.db, w.before, w.log, w.after.head);
  }

  lemma SafeWithout(db: J.Db, head: Block, op: J.Operation, m: J.Mutation)
    requires ChainOk(db, head) && NodesOk(db)
    requires J.Mines(op) && op.targetNumber == Number(head) + 1 && m.block.BlockValue?
    requires forall e :: e in op.executionPuts ==> e.name.StateNode? && e.data == NodeData(e.name.hash)
    ensures J.Safe(J.Without(db, op), op, m)
  {
    hide J.Repeats, Number, Chain;
    ExecutionRepeats(J.Without(db, op), op);
    assert forall k: J.Key :: J.ChainKey(k) ==> J.Agree(J.Without(db, op), db, k);
    ChainFrame(db, J.Without(db, op), head);
    FreshHeight(J.Without(db, op), head, op, m.block.txs);
  }

  lemma StoredIsNamed(db: J.Db, s: State, log: Log, b: Block)
    requires MetaOk(db, s, log) && b in s.stored
    ensures J.DataKey(BlockSlot(b)) in db
  {
    assert Governed(BlockSlot(b)) && Read(db, BlockSlot(b)) == Expected(s, log, BlockSlot(b));
  }

  // ----- Starting again -------------------------------------------------------------------------------------

  /** The same node, whatever its histories. */
  predicate SameNode(s: State, t: State) {
    s == t.(issued := s.issued, published := s.published)
  }

  /** What a startup reads: `s` is in the database, and the event log holds the newest of its events. */
  ghost predicate Loads(db: J.Db, s: State, log: Log) {
    && J.JournalKey !in db && J.HeadKey in db && db[J.HeadKey] == J.HashValue(Some(s.head)) && s == Reloaded(s)
    && MetaOk(db, s, log) && Exact(log, s.published)
  }

  /** The database determines everything but the in-memory index, the snapshots and the histories. */
  lemma DatabaseIsExact(db: J.Db, s: State, log: Log, t: State, log': Log)
    requires Represents(db, s, log) && Loads(db, t, log')
    ensures SameNode(t, Reloaded(s)) && log.disk == log'.disk
  {
    hide Exact, BlocksOk, NodesOk, Expected, Read;
    assert forall n: Name | Governed(n) :: Expected(s, log, n) == Expected(t, log', n);
    SameScalars(s, log, t, log');
    SameMaps(s, log, t, log');
    hide *;
  }

  lemma SameScalars(s: State, log: Log, t: State, log': Log)
    requires forall n: Name | Governed(n) :: Expected(s, log, n) == Expected(t, log', n)
    ensures s.slot == t.slot && s.paused == t.paused && s.finalitySlot == t.finalitySlot
    ensures s.session == t.session && s.queue == t.queue
  {
    assert Governed(Timeline) && Governed(Session) && Governed(Pending);
    assert Expected(s, log, Timeline) == Expected(t, log', Timeline);
    assert Expected(s, log, Session) == Expected(t, log', Session);
    assert Expected(s, log, Pending) == Expected(t, log', Pending);
  }

  lemma SameMaps(s: State, log: Log, t: State, log': Log)
    requires forall n: Name | Governed(n) :: Expected(s, log, n) == Expected(t, log', n)
    ensures s.disk == t.disk && s.safety == t.safety && s.records == t.records
    ensures s.branches == t.branches && s.checkpoints == t.checkpoints && log.disk == log'.disk
    ensures s.stored == t.stored
  {
    forall b ensures b in s.stored <==> b in t.stored {
      assert Expected(s, log, BlockSlot(b)) == Expected(t, log', BlockSlot(b));
    }
    forall at ensures at in s.disk <==> at in t.disk ensures at in s.disk ==> s.disk[at] == t.disk[at] {
      assert Expected(s, log, CanonicalSlot(at)) == Expected(t, log', CanonicalSlot(at));
    }
    forall b ensures b in s.safety <==> b in t.safety ensures b in s.safety ==> s.safety[b] == t.safety[b] {
      assert Expected(s, log, BlockSafety(b)) == Expected(t, log', BlockSafety(b));
    }
    forall b ensures b in s.records <==> b in t.records ensures b in s.records ==> s.records[b] == t.records[b] {
      assert Expected(s, log, RequestRecord(b)) == Expected(t, log', RequestRecord(b));
    }
    forall n ensures n in s.branches <==> n in t.branches ensures n in s.branches ==> s.branches[n] == t.branches[n] {
      assert Expected(s, log, BranchName(n)) == Expected(t, log', BranchName(n));
    }
    forall n ensures n in s.checkpoints <==> n in t.checkpoints
             ensures n in s.checkpoints ==> s.checkpoints[n] == t.checkpoints[n]
    {
      assert Expected(s, log, CheckpointName(n)) == Expected(t, log', CheckpointName(n));
    }
    forall r ensures r in log.disk <==> r in log'.disk ensures r in log.disk ==> log.disk[r] == log'.disk[r] {
      assert Expected(s, log, EventName(r)) == Expected(t, log', EventName(r));
    }
    hide *;
  }

  /** A startup that is not refused: `s` is loaded, every block with slot metadata is there, and all checks pass. */
  ghost predicate Starts(cfg: Config, db: J.Db, s: State, log: Log) {
    && ValidConfig(cfg) && Loads(db, s, log) && (forall b :: b in s.stored ==> J.BlockKey(Some(b)) in db)
    && RuntimeMetadataValid(s) && RequestMetadataValid(s) && ControlMetadataValid(s) && CanBuildAt(cfg, s.slot + 1)
  }

  lemma MissingBlockIsRefused(cfg: Config, db: J.Db, s: State, log: Log)
    requires NamesMissingBlock(db)
    ensures !Starts(cfg, db, s, log)
  {
    hide Exact, RuntimeMetadataValid, RequestMetadataValid, ControlMetadataValid, CanBuildAt, ValidConfig;
    var b: Block :| J.DataKey(BlockSlot(b)) in db && J.BlockKey(Some(b)) !in db;
    assert Governed(BlockSlot(b));
    assert MetaOk(db, s, log) ==> Read(db, BlockSlot(b)) == Expected(s, log, BlockSlot(b));
  }

  /** The startup checks do not see the histories. */
  lemma ChecksIgnoreHistories(s: State, t: State)
    requires SameNode(s, t)
    ensures RuntimeMetadataValid(s) ==> RuntimeMetadataValid(t)
    ensures RequestMetadataValid(s) ==> RequestMetadataValid(t)
    ensures ControlMetadataValid(s) ==> ControlMetadataValid(t)
  {
    hide Above, Chain, Ancestor, ValidRecord, ValidQueue;
    if RequestMetadataValid(s) {
      assert forall p, u, x :: Holds(s, p, u, x) <==> Holds(t, p, u, x);
      assert forall p :: Live(s, p) <==> Live(t, p);
    }
  }

  /** Starting from the database of a state is restarting that state. */
  lemma StartIsRestart(cfg: Config, db: J.Db, s: State, log: Log, t: State, log': Log)
    requires Represents(db, s, log) && Starts(cfg, db, t, log')
    ensures Restart(cfg, s) == Some(Reloaded(s)) && SameNode(t, Reloaded(s)) && log.disk == log'.disk
    ensures CanBuildAt(cfg, s.slot + 1) && Represents(db, t, log')
  {
    hide RuntimeMetadataValid, RequestMetadataValid, ControlMetadataValid, CanBuildAt, MetaOk, NodesOk, ChainOk,
         BlocksOk, Exact;
    DatabaseIsExact(db, s, log, t, log');
    ChecksIgnoreHistories(t, Reloaded(s));
  }

  /** And where that state restarts, the startup is accepted. */
  lemma RestartStarts(cfg: Config, db: J.Db, s: State, log: Log)
    requires ValidConfig(cfg) && Represents(db, s, log) && Restart(cfg, s).Some?
    ensures Starts(cfg, db, Reloaded(s), log)
  {
    hide RuntimeMetadataValid, RequestMetadataValid, ControlMetadataValid, CanBuildAt, NodesOk, ChainOk, Exact, Read;
    assert db[J.HeadKey] == J.HashValue(Some(s.head)) by { HeadIsKnown(db, s.head); }
    assert forall n :: Expected(Reloaded(s), log, n) == Expected(s, log, n);
  }

  lemma HeadIsKnown(db: J.Db, head: Block)
    requires ChainOk(db, head)
    ensures J.HeadKey in db && db[J.HeadKey] == J.HashValue(Some(head))
  {
  }

  /** The events on disk tell how many were ever published. */
  lemma EventsCountThemselves(log: Log, all: seq<Event>, log': Log, all': seq<Event>)
    requires Exact(log, all) && Exact(log', all') && log.disk == log'.disk
    ensures |all| == |all'|
  {
    NewestOnDisk(log, all);
    NewestOnDisk(log', all');
  }

  /** The newest revision on disk is the number of events published. */
  lemma NewestOnDisk(log: Log, all: seq<Event>)
    requires Exact(log, all)
    ensures forall r :: r in log.disk ==> r <= |all|
    ensures all != [] ==> |all| in log.disk
  {
    ExactIsConsecutive(log, all);
    RangeOfRevisions(log.events, log.next - |log.events|);
  }

  // ----- Whole lives ----------------------------------------------------------------------------------------

  /** A running node with its database. */
  datatype Alive = Alive(s: State, log: Log, db: J.Db)

  /** A write that runs to its end, or one that is cut, perhaps many times, after which the node starts again. A restart
      is a write that commits nothing. */
  datatype Episode =
    | Whole(w: Write, m: J.Mutation)
    | Cut(w: Write, m: J.Mutation, actions: seq<J.Action>)

  predicate SameHistories(s: State, t: State) {
    s.issued == t.issued && s.published == t.published
  }

  ghost predicate Lives(cfg: Config, a: Alive, e: Episode, b: Alive) {
    && e.w.before == a.s && e.w.log == a.log && e.w.db == a.db && Accepts(cfg, e.w) && GoodCommit(e.w, e.m)
    && match e
       case Whole(w, m) => b == Alive(w.after, LogAfter(w), Written(w, m))
       case Cut(w, m, actions) =>
         && CommitOf(w).Journaled? && Alone(actions)
         && J.Up(CutNode(w, m, actions)) && b.db == CutNode(w, m, actions).db && Starts(cfg, b.db, b.s, b.log)
         && (SameHistories(b.s, w.before) || SameHistories(b.s, w.after))
  }

  ghost predicate Life(cfg: Config, a: Alive, episodes: seq<Episode>, b: Alive)
    decreases |episodes|
  {
    if episodes == [] then a == b
    else exists c: Alive :: Lives(cfg, a, episodes[0], c) && Life(cfg, c, episodes[1..], b)
  }

  /** Where a cut write leaves the database, whatever it wrote. */
  lemma CutSettles(w: Write, m: J.Mutation, actions: seq<J.Action>)
    requires Ready(w) && CommitOf(w).Journaled? && GoodCommit(w, m) && Alone(actions) && J.Up(CutNode(w, m, actions))
    ensures var n := CutNode(w, m, actions);
            || Represents(n.db, w.after, LogAfter(w))
            || (!n.acked && Represents(n.db, w.before, w.log)) || NamesMissingBlock(n.db)
  {
    hide Ready, Represents, CommitOf, LogAfter, PlanOf, News, GoodCommit, J.Run, NamesMissingBlock;
    if w.step.DoMine? && w.after.head in w.before.stored {
      CutRemine(w, m, actions);
    } else {
      CutWrite(w, m, actions);
    }
  }

  /** The histories are those of the state the database holds. */
  lemma HistoriesFollow(w: Write, t: State, log: Log, s: State, log': Log)
    requires Ready(w) && CommitOf(w).Journaled? && (s == w.before || s == w.after)
    requires SameHistories(t, w.before) || SameHistories(t, w.after)
    requires Exact(log, t.published) && Exact(log', s.published) && log.disk == log'.disk
    ensures SameHistories(t, s)
  {
    EventsCountThemselves(log, t.published, log', s.published);
    hide Exact, Represents, Follows, GoodExtras, FootprintOf, TreeInv, PlanOf, BatchOf;
  }

  /** A startup on the database of a state of the write restarts that state, histories included. */
  lemma StartsAs(cfg: Config, w: Write, db: J.Db, t: State, log: Log, s: State, log': Log)
    requires Ready(w) && CommitOf(w).Journaled? && (s == w.before || s == w.after)
    requires SameHistories(t, w.before) || SameHistories(t, w.after)
    requires Represents(db, s, log') && Starts(cfg, db, t, log)
    ensures CanBuildAt(cfg, s.slot + 1) && Restart(cfg, s) == Some(t) && Represents(db, t, log)
  {
    StartIsRestart(cfg, db, s, log', t, log);
    hide Ready, CommitOf, Restart, CanBuildAt, RuntimeMetadataValid, RequestMetadataValid, ControlMetadataValid, Exact,
         MetaOk, NodesOk, ChainOk, BlocksOk, PlanOf;
    HistoriesFollow(w, t, log, s, log');
  }

  /** After a cut the node is the one before the write or the one after it, restarted; and the latter if the write was
      reported as done. */
  lemma CutComesBack(cfg: Config, a: Alive, e: Episode, b: Alive)
    requires Inv(a.s) && Represents(a.db, a.s, a.log) && e.Cut? && Lives(cfg, a, e, b)
    ensures Represents(b.db, b.s, b.log)
    ensures || After(cfg, e.w.after, DoRestart) == b.s
            || (After(cfg, a.s, DoRestart) == b.s && !CutNode(e.w, e.m, e.actions).acked)
  {
    hide Inv, Represents, CommitOf, LogAfter, PlanOf, GoodMutation, J.Run, NamesMissingBlock, Starts, Restart,
         CanBuildAt, Ready, J.Up, Try, News, GoodExtras, FootprintOf;
    var w, n := e.w, CutNode(e.w, e.m, e.actions);
    AcceptedIsReady(cfg, w);
    if NamesMissingBlock(n.db) { MissingBlockIsRefused(cfg, n.db, b.s, b.log); }
    CutSettles(w, e.m, e.actions);
    if Represents(n.db, w.after, LogAfter(w)) {
      StartsAs(cfg, w, n.db, b.s, b.log, w.after, LogAfter(w));
      RestartStep(cfg, w.after);
    } else {
      StartsAs(cfg, w, n.db, b.s, b.log, w.before, w.log);
      RestartStep(cfg, w.before);
    }
  }

  lemma RestartStep(cfg: Config, s: State)
    requires ValidConfig(cfg) && CanBuildAt(cfg, s.slot + 1) && Restart(cfg, s).Some?
    ensures After(cfg, s, DoRestart) == Restart(cfg, s).value
  {
    hide Restart, CanBuildAt;
  }

  lemma StepAccepted(cfg: Config, w: Write)
    requires Accepts(cfg, w)
    ensures After(cfg, w.before, w.step) == w.after
  {
    hide Try, GoodExtras, FootprintOf, PlanOf;
  }

  /** One episode goes from the state of a clean run to the state of a clean run. */
  lemma EpisodeIsClean(cfg: Config, run: seq<Step>, a: Alive, e: Episode, b: Alive) returns (run': seq<Step>)
    requires ValidConfig(cfg) && a.s == Run(cfg, INITIAL, run) && Represents(a.db, a.s, a.log) && Lives(cfg, a, e, b)
    ensures b.s == Run(cfg, INITIAL, run') && Represents(b.db, b.s, b.log)
  {
    hide Represents, CommitOf, LogAfter, PlanOf, J.Run, Starts, Ready, After, Run, GoodCommit, CutNode, Inv, Accepts,
         Written;
    ReachableInv(cfg, run);
    StepAccepted(cfg, e.w);
    if e.Whole? {
      AcceptedIsReady(cfg, e.w);
      WriteIsPersisted(e.w, e.m);
      run' := run + [e.w.step];
      RunSnoc(cfg, INITIAL, run, e.w.step);
    } else {
      CutComesBack(cfg, a, e, b);
      RunSnoc(cfg, INITIAL, run, e.w.step);
      if After(cfg, e.w.after, DoRestart) == b.s {
        run' := run + [e.w.step] + [DoRestart];
        RunSnoc(cfg, INITIAL, run + [e.w.step], DoRestart);
      } else {
        run' := run + [DoRestart];
        RunSnoc(cfg, INITIAL, run, DoRestart);
      }
    }
  }

  lemma {:induction false} RunSnoc(cfg: Config, s: State, run: seq<Step>, step: Step)
    requires ValidConfig(cfg)
    ensures Run(cfg, s, run + [step]) == After(cfg, Run(cfg, s, run), step)
    decreases |run|
  {
    hide After, ValidConfig;
    if run == [] {
      assert run + [step] == [step] && [step][1..] == [];
    } else {
      assert (run + [step])[1..] == run[1..] + [step];
      RunSnoc(cfg, After(cfg, s, run[0]), run[1..], step);
    }
  }

  /** Whatever is written, and wherever each write is cut: in every life of the node its memory is that of a run without
      any cut, and its database is the database of that memory. */
  lemma {:induction false} LifeIsCleanRun(cfg: Config, run: seq<Step>, a: Alive, episodes: seq<Episode>, b: Alive)
    returns (run': seq<Step>)
    requires ValidConfig(cfg) && a.s == Run(cfg, INITIAL, run) && Represents(a.db, a.s, a.log)
    requires Life(cfg, a, episodes, b)
    ensures b.s == Run(cfg, INITIAL, run') && Represents(b.db, b.s, b.log)
    decreases |episodes|
  {
    hide Represents, Run, Lives, ValidConfig;
    if episodes == [] {
      run' := run;
    } else {
      var c: Alive :| Lives(cfg, a, episodes[0], c) && Life(cfg, c, episodes[1..], b);
      var next := EpisodeIsClean(cfg, run, a, episodes[0], c);
      run' := LifeIsCleanRun(cfg, next, c, episodes[1..], b);
    }
  }

  /** From the first start on. */
  lemma FirstLifeIsCleanRun(cfg: Config, capacity: nat, episodes: seq<Episode>, b: Alive) returns (run: seq<Step>)
    requires ValidConfig(cfg) && capacity > 0
    requires Life(cfg, Alive(INITIAL, Log(capacity, 1, [], map[]), FRESH), episodes, b)
    ensures b.s == Run(cfg, INITIAL, run) && Inv(b.s) && Represents(b.db, b.s, b.log)
  {
    hide Represents, Life, Inv;
    FreshRepresents(capacity);
    assert Run(cfg, INITIAL, []) == INITIAL;
    run := LifeIsCleanRun(cfg, [], Alive(INITIAL, Log(capacity, 1, [], map[]), FRESH), episodes, b);
    ReachableInv(cfg, run);
  }
}
