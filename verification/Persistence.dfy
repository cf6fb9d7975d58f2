/** The node on disk: what every write commits, and what is there after it. */
module Persistence {
  import opened Prelude
  import opened BlockTree
  import opened RequestQueue
  import opened Reconcile
  import opened Taint
  import opened NodeState
  import opened NodeSteps
  import opened EventLog
  import opened Schema
  import J = Journal

  // ----- What the database says about a node ----------------------------------------------------------------

  /** The metadata of the node's memory, by name; events are kept by the event log. */
  function Lookup(s: State, n: Name): Option<Data> {
    match n
    case Timeline => Some(TimelineData(s.slot, s.paused, s.finalitySlot))
    case Session => Some(SafetyData(s.session))
    case Pending => Some(QueueData(s.queue))
    case BlockSlot(b) => if b in s.stored then Some(SlotData(SlotOf(b))) else None
    case CanonicalSlot(at) => if at in s.disk then Some(BlockData(s.disk[at])) else None
    case BlockSafety(b) => if b in s.safety then Some(SafetyData(s.safety[b])) else None
    case RequestRecord(b) => if b in s.records then Some(RecordData(s.records[b])) else None
    case BranchName(name) => if name in s.branches then Some(BranchData(s.branches[name])) else None
    case CheckpointName(name) => if name in s.checkpoints then Some(PointData(s.checkpoints[name])) else None
    case _ => None
  }

  function Expected(s: State, log: Log, n: Name): Option<Data> {
    if n.EventName? then (if n.revision in log.disk then Some(EventData(log.disk[n.revision])) else None)
    else Lookup(s, n)
  }

  /** Names that make up the node; the others are content or derived data. */
  predicate Governed(n: Name) {
    !n.StateNode? && !n.Extra?
  }

  /** A load; a queue that was never written is empty. */
  function Read(db: J.Db, n: Name): Option<Data> {
    if J.DataKey(n) in db && db[J.DataKey(n)].DataValue? then Some(db[J.DataKey(n)].data)
    else if n.Pending? then Some(QueueData(EMPTY_QUEUE))
    else None
  }

  ghost predicate MetaOk(db: J.Db, s: State, log: Log) {
    && (forall n: Name :: J.DataKey(n) in db ==> db[J.DataKey(n)].DataValue?)
    && (forall n: Name :: Governed(n) ==> Read(db, n) == Expected(s, log, n))
  }

  /** A state node stands under its own hash. */
  ghost predicate NodesOk(db: J.Db) {
    forall h: nat :: J.DataKey(StateNode(h)) in db ==> db[J.DataKey(StateNode(h))] == J.DataValue(NodeData(h))
  }

  function Transactions(b: Block): seq<nat> {
    if b.Child? then b.body.transactions else []
  }

  function BlockOf(b: Block): J.Value {
    J.BlockValue(Number(b), Transactions(b))
  }

  ghost predicate BlocksOk(db: J.Db, stored: set<Block>) {
    forall h: J.Hash ::
      && (J.BlockKey(h) in db <==> h.Some? && h.value in stored)
      && (J.BlockKey(h) in db ==> db[J.BlockKey(h)] == BlockOf(h.value))
  }

  /** The chain library's view: the head, the canonical mapping, and transactions looked up on the canonical chain. */
  ghost predicate ChainOk(db: J.Db, head: Block) {
    && J.HeadKey in db && db[J.HeadKey] == J.HashValue(Some(head))
    && (forall i: nat ::
          (J.CanonKey(i) in db <==> i <= Number(head)) &&
          (i <= Number(head) ==> db[J.CanonKey(i)] == J.HashValue(Some(Chain(head)[i]))))
    && (forall t: nat :: J.LookupKey(t) in db ==>
          db[J.LookupKey(t)].NumberValue? && db[J.LookupKey(t)].number <= Number(head))
  }

  /** The database of a node with memory `s` and event log `log`, with no write under way. */
  ghost predicate Represents(db: J.Db, s: State, log: Log) {
    && J.JournalKey !in db
    && ChainOk(db, s.head) && BlocksOk(db, s.stored) && MetaOk(db, s, log) && NodesOk(db)
    && Exact(log, s.published)
  }

  // ----- What a write commits -------------------------------------------------------------------------------

  /** The names a write puts with their new values, the path it enters into the slot index, and the slots it deletes
      there. */
  datatype Footprint = Footprint(names: seq<Name>, path: seq<Block>, dropped: set<nat>)

  const NOTHING := Footprint([], [], {})

  function MinedNames(b: Block): seq<Name>
    requires b.Child?
  {
    [Timeline, BlockSlot(b), BlockSafety(b), RequestRecord(b)] +
    (if b.requests != b.native then [Pending] else []) +
    (if UnsafeReasons(b.kind, b.requests != b.native) != [] then [Session] else [])
  }

  ghost function FootprintOf(s: State, step: Step, s': State): Footprint {
    match step
    case DoAddRequest(_, _) => Footprint([Pending], [], {})
    case DoMine(_, _) => if s'.head.Child? then Footprint(MinedNames(s'.head), [s'.head], {}) else NOTHING
    case DoMineBranch(name, _) =>
      if name !in s'.branches then NOTHING
      else Footprint(BranchNames(name, s'.branches[name].head), [], {})
    case DoCreateBranch(name, _) => Footprint([BranchName(name)], [], {})
    case DoSwitchBranch(_) => SwitchFootprint(s, s')
    case DoMissSlots(count) => if count == 0 then NOTHING else Footprint([Timeline], [], {})
    case DoSnapshot => NOTHING
    case DoRevert(_) => SwitchFootprint(s, s')
    case DoCheckpoint(name) => Footprint([CheckpointName(name)], [], {})
    case DoRestore(_) => SwitchFootprint(s, s')
    case DoPause => if s.paused then NOTHING else Footprint([Timeline], [], {})
    case DoResume => if s.paused then Footprint([Timeline], [], {}) else NOTHING
    case DoRestart => NOTHING
  }

  function SwitchFootprint(s: State, s': State): Footprint {
    var c := Lca(s.head, s'.head);
    if s'.head == s.head && s'.slot == s.slot then NOTHING
    else Footprint([Timeline, Pending], Above(s'.head, c), Dropped(s.index, Above(s.head, c), s'.slot))
  }

  /** A name with one value in memory. */
  predicate Plain(n: Name) {
    Governed(n) && !n.CanonicalSlot? && !n.EventName?
  }

  /** The new state differs from the old one in its metadata just by the footprint. */
  ghost predicate Follows(s: State, s': State, f: Footprint) {
    && (forall n :: n in f.names ==> Plain(n) && Lookup(s', n).Some?)
    && (forall n: Name :: Plain(n) && n !in f.names ==> Lookup(s', n) == Lookup(s, n))
    && s'.disk == Entered(s.disk, f.path) - f.dropped
  }

  /** The persisted fields a mined block changes. */
  ghost predicate MineChanges(s: State, s': State) {
    var b := s'.head;
    && b.Child? && b.parent == s.head
    && s'.stored == s.stored + {b} && b in s'.safety && b in s'.records
    && s'.safety == s.safety[b := s'.safety[b]] && s'.records == s.records[b := s'.records[b]]
    && s'.disk == s.disk[b.slot := b]
    && (b.requests == b.native ==> s'.queue == s.queue)
    && (UnsafeReasons(b.kind, b.requests != b.native) == [] ==> s'.session == s.session)
    && s'.branches == s.branches && s'.checkpoints == s.checkpoints
  }

  lemma MineChangesThese(cfg: Config, s: State, kind: Kind, built: Built)
    requires ValidConfig(cfg) && NodeState.Mine(cfg, s, kind, built).Some?
    ensures MineChanges(s, NodeState.Mine(cfg, s, kind, built).value)
  {
    hide Prepare, CanBuildAt, ValidQueue, ValidRecord, SafetyForChild, TaintSession, FinalizedBetween, ValidConfig,
         SafetyOf, UnsafeReasons;
    QueueUnlessControlled(built, s.queue);
  }

  lemma MinedNamesAre(b: Block, n: Name)
    requires b.Child?
    ensures n in MinedNames(b) <==>
            || n == Timeline || n == BlockSlot(b) || n == BlockSafety(b) || n == RequestRecord(b)
            || (n == Pending && b.requests != b.native)
            || (n == Session && UnsafeReasons(b.kind, b.requests != b.native) != [])
  {
    hide UnsafeReasons;
    var four := [Timeline, BlockSlot(b), BlockSafety(b), RequestRecord(b)];
    var pending := if b.requests != b.native then [Pending] else [];
    assert n in four <==> n == Timeline || n == BlockSlot(b) || n == BlockSafety(b) || n == RequestRecord(b);
    assert n in four + pending <==> n in four || n in pending;
  }

  lemma MineFollows(s: State, s': State)
    requires MineChanges(s, s')
    ensures Follows(s, s', Footprint(MinedNames(s'.head), [s'.head], {}))
  {
    hide UnsafeReasons, MinedNames;
    EnteredOne(s.disk, s'.head);
    forall n: Name ensures n in MinedNames(s'.head) ==> Plain(n) && Lookup(s', n).Some?
                   ensures Plain(n) && n !in MinedNames(s'.head) ==> Lookup(s', n) == Lookup(s, n)
    {
      MinedNamesAre(s'.head, n);
    }
  }

  lemma EnteredOne(disk: map<nat, Block>, b: Block)
    ensures Entered(disk, [b]) == disk[SlotOf(b) := b] && Entered(disk, []) == disk
  {
    assert [b][1..] == [];
  }

  /** A block that takes no controls leaves the queue alone. */
  lemma QueueUnlessControlled(built: Built, q: Queue)
    requires Prepare(built.native, built.numbered, built.native, q).Some?
    ensures var p := Prepare(built.native, built.numbered, built.native, q).value;
            && (p.controlled <==> p.requests != built.native) && (!p.controlled ==> p.remaining == q)
  {
    hide Prepare;
    PreparedFacts(built, q);
    var p := Prepare(built.native, built.numbered, built.native, q).value;
    if !p.controlled {
      NoControlsTaken(built, q);
      forall t | 0 <= t < CONTROL_TYPES ensures p.remaining.Of(t) == q.Of(t) {
        assert p.record.controls.Of(t) == [];
        assert [] + p.remaining.Of(t) == p.remaining.Of(t);
      }
      SameLists(p.remaining, q);
    }
  }

  lemma NoControlsTaken(built: Built, q: Queue)
    requires var p := Prepare(built.native, built.numbered, built.native, q); p.Some? && !p.value.controlled
    ensures Prepare(built.native, built.numbered, built.native, q).value.record.controls == NO_CONTROLS
  {
    hide Appended, Decodable, AcceptedList, VerifyRequestsHash, Taken, Left;
  }

  lemma SameLists(q: Queue, r: Queue)
    requires q.nextID == r.nextID && forall t :: 0 <= t < CONTROL_TYPES ==> q.Of(t) == r.Of(t)
    ensures q == r
  {
    assert q.Of(0) == r.Of(0) && q.Of(1) == r.Of(1) && q.Of(2) == r.Of(2);
  }

  /** All persisted fields but the slot index are the same. */
  predicate SameFields(s: State, s': State) {
    && s'.slot == s.slot && s'.paused == s.paused && s'.finalitySlot == s.finalitySlot && s'.session == s.session
    && s'.queue == s.queue && SameTables(s, s') && s'.branches == s.branches && s'.checkpoints == s.checkpoints
  }

  predicate SameTables(s: State, s': State) {
    s'.stored == s.stored && s'.safety == s.safety && s'.records == s.records
  }

  lemma NothingFollows(s: State, s': State)
    requires SameFields(s, s') && s'.disk == s.disk
    ensures Follows(s, s', NOTHING)
  {
    EnteredOne(s.disk, Genesis);
  }

  lemma OneFollows(s: State, s': State, n: Name)
    requires n.Timeline? || n.Pending? || n.BranchName? || n.CheckpointName?
    requires s'.session == s.session && SameTables(s, s') && s'.disk == s.disk
    requires n.Timeline? || (s'.slot == s.slot && s'.paused == s.paused && s'.finalitySlot == s.finalitySlot)
    requires n.Pending? || s'.queue == s.queue
    requires if n.BranchName? then
               n.branch in s'.branches && s'.branches == s.branches[n.branch := s'.branches[n.branch]]
             else s'.branches == s.branches
    requires if n.CheckpointName? then
               n.checkpoint in s'.checkpoints &&
               s'.checkpoints == s.checkpoints[n.checkpoint := s'.checkpoints[n.checkpoint]]
             else s'.checkpoints == s.checkpoints
    ensures Follows(s, s', Footprint([n], [], {}))
  {
    EnteredOne(s.disk, Genesis);
  }

  /** The persisted fields a branch block changes. */
  ghost predicate BranchChanges(s: State, s': State, name: string, b: Block) {
    && b.Child? && s'.stored == s.stored + {b} && b in s'.safety && b in s'.records && name in s'.branches
    && s'.safety == s.safety[b := s'.safety[b]] && s'.records == s.records[b := s'.records[b]]
    && s'.branches == s.branches[name := s'.branches[name]] && s'.branches[name].head == b
    && s'.disk == s.disk && s'.queue == s.queue && s'.session == s.session && s'.checkpoints == s.checkpoints
    && s'.slot == s.slot && s'.paused == s.paused && s'.finalitySlot == s.finalitySlot
    && s'.head == s.head && s'.published == s.published && s'.issued == s.issued
  }

  lemma BranchChangesThese(cfg: Config, s: State, name: string, built: Built)
    requires ValidConfig(cfg) && NodeState.MineBranch(cfg, s, name, built).Some?
    ensures var s' := NodeState.MineBranch(cfg, s, name, built).value;
            name in s'.branches && BranchChanges(s, s', name, s'.branches[name].head)
  {
    hide Prepare, ValidRecord, SafetyForChild, ValidConfig, SafetyOf;
  }

  function BranchNames(name: string, b: Block): seq<Name> {
    [BlockSlot(b), BlockSafety(b), RequestRecord(b), BranchName(name)]
  }

  lemma BranchNamesAre(name: string, b: Block, n: Name)
    ensures n in BranchNames(name, b) <==>
            n == BlockSlot(b) || n == BlockSafety(b) || n == RequestRecord(b) || n == BranchName(name)
  {
  }

  lemma BranchFollows(s: State, s': State, name: string, b: Block)
    requires BranchChanges(s, s', name, b)
    ensures Follows(s, s', Footprint(BranchNames(name, b), [], {}))
  {
    hide BranchNames;
    EnteredOne(s.disk, Genesis);
    forall n: Name ensures n in BranchNames(name, b) ==> Plain(n) && Lookup(s', n).Some?
                   ensures Plain(n) && n !in BranchNames(name, b) ==> Lookup(s', n) == Lookup(s, n)
    {
      BranchNamesAre(name, b, n);
    }
  }

  lemma SwitchFollows(s: State, target: Block, targetSlot: nat)
    requires SwitchCanonical(s, target, targetSlot).Some?
    ensures var s' := SwitchCanonical(s, target, targetSlot).value;
            s'.stored == s.stored && Follows(s, s', SwitchFootprint(s, s'))
  {
    hide Reconciled, ValidQueue, SwitchEvents, Above, Lca, Dropped, Entered, Kept;
    SwitchFrame(s, target, targetSlot);
    var s' := SwitchCanonical(s, target, targetSlot).value;
    if s.head == target && s.slot == targetSlot {
      NothingFollows(s, s');
    } else {
      SwitchedFollows(s, s');
    }
  }

  lemma SwitchedFollows(s: State, s': State)
    requires Elsewhere(s, s', s'.head, s'.slot) && (s'.head != s.head || s'.slot != s.slot)
    requires var c := Lca(s.head, s'.head);
             s'.disk == Entered(s.disk, Above(s'.head, c)) - Dropped(s.index, Above(s.head, c), s'.slot)
    ensures Follows(s, s', SwitchFootprint(s, s'))
  {
    hide Above, Lca, Dropped, Entered;
    var names := [Timeline, Pending];
    assert names[0] == Timeline && names[1] == Pending;
  }

  lemma ClockFollows(cfg: Config, s: State, step: Step)
    requires ValidConfig(cfg) && (step.DoMissSlots? || step.DoPause? || step.DoResume?) && Try(cfg, s, step).Some?
    ensures Follows(s, Try(cfg, s, step).value, FootprintOf(s, step, Try(cfg, s, step).value))
  {
    hide ValidConfig, CanBuildAt, Follows, ResolveAt, FinalizedBetween, TransitionEvents, MissedEvents;
    var s' := Try(cfg, s, step).value;
    match step
    case DoMissSlots(count) => if count == 0 { NothingFollows(s, s'); } else { OneFollows(s, s', Timeline); }
    case DoPause => if s.paused { NothingFollows(s, s'); } else { OneFollows(s, s', Timeline); }
    case DoResume => if s.paused { OneFollows(s, s', Timeline); } else { NothingFollows(s, s'); }
  }

  lemma NamedFollows(cfg: Config, s: State, step: Step)
    requires ValidConfig(cfg) && (step.DoAddRequest? || step.DoCreateBranch? || step.DoCheckpoint?)
    requires Try(cfg, s, step).Some?
    ensures Follows(s, Try(cfg, s, step).value, FootprintOf(s, step, Try(cfg, s, step).value))
  {
    hide ValidConfig, CanBuildAt, Follows, ResolveAt, Enqueue, ValidQueue, SafetyOf, Chain;
    var s' := Try(cfg, s, step).value;
    match step
    case DoAddRequest(_, _) => OneFollows(s, s', Pending);
    case DoCreateBranch(name, _) => OneFollows(s, s', BranchName(name));
    case DoCheckpoint(name) => OneFollows(s, s', CheckpointName(name));
  }

  lemma StepFollows(cfg: Config, s: State, step: Step)
    requires ValidConfig(cfg) && Try(cfg, s, step).Some?
    ensures Follows(s, Try(cfg, s, step).value, FootprintOf(s, step, Try(cfg, s, step).value))
  {
    hide ValidConfig, CanBuildAt, Follows, SwitchFootprint, SwitchCanonical, ResolveAt, NodeState.Mine, Lca, Chain,
         NodeState.MineBranch, AddRequest, CreateBranch, MissSlots, Pause, Resume, Checkpoint, Revert, MinedNames,
         BranchNames, SafetyOf, RuntimeMetadataValid, RequestMetadataValid, ControlMetadataValid;
    var s' := Try(cfg, s, step).value;
    match step
    case DoMine(kind, built) =>
      MineChangesThese(cfg, s, kind, built);
      MineFollows(s, s');
    case DoMineBranch(name, built) =>
      BranchChangesThese(cfg, s, name, built);
      BranchFollows(s, s', name, s'.branches[name].head);
    case DoSwitchBranch(name) => SwitchFollows(s, s.branches[name].head, SlotOf(s.branches[name].head));
    case DoRevert(id) => RevertFollows(s, id);
    case DoRestore(name) => SwitchFollows(s, s.checkpoints[name].block, s.checkpoints[name].slot);
    case DoSnapshot => NothingFollows(s, s');
    case DoRestart => NothingFollows(s, s');
    case DoAddRequest(_, _) => NamedFollows(cfg, s, step);
    case DoCreateBranch(_, _) => NamedFollows(cfg, s, step);
    case DoCheckpoint(_) => NamedFollows(cfg, s, step);
    case _ => ClockFollows(cfg, s, step);
  }

  lemma RevertFollows(s: State, id: nat)
    requires Revert(s, id).Some?
    ensures Follows(s, Revert(s, id).value, SwitchFootprint(s, Revert(s, id).value))
  {
    hide SwitchCanonical, SwitchFootprint, Lca;
    var s' := Revert(s, id).value;
    if id in s.snapshots && !s.snapshots[id].used {
      SwitchFollows(s, s.snapshots[id].block, s.snapshots[id].slot);
      SnapshotsAreMemory(s, SwitchCanonical(s, s.snapshots[id].block, s.snapshots[id].slot).value, s');
    } else {
      NothingFollows(s, s');
      NoSwitch(s);
    }
  }

  lemma NoSwitch(s: State)
    ensures SwitchFootprint(s, s) == NOTHING
  {
  }

  lemma SnapshotsAreMemory(s: State, t: State, s': State)
    requires s' == t.(snapshots := s'.snapshots) && Follows(s, t, SwitchFootprint(s, t))
    ensures Follows(s, s', SwitchFootprint(s, s'))
  {
    hide Above, Lca, Dropped, Entered;
    assert forall n :: Lookup(s', n) == Lookup(t, n);
  }

  // ----- The batch of a write -------------------------------------------------------------------------------

  function Puts(s: State, names: seq<Name>): seq<J.Entry> {
    if names == [] then []
    else
      var last := names[|names| - 1];
      var value := Lookup(s, last);
      Puts(s, names[..|names| - 1]) + if value.Some? then [J.Entry(last, value.value)] else []
  }

  /** The slot index entries of a tip-first path, lowest block first. */
  function PathPuts(path: seq<Block>): seq<J.Entry> {
    if path == [] then []
    else PathPuts(path[1..]) + [J.Entry(CanonicalSlot(SlotOf(path[0])), BlockData(path[0]))]
  }

  function EventPuts(added: seq<Logged>): seq<J.Entry> {
    if added == [] then []
    else
      var last := added[|added| - 1];
      EventPuts(added[..|added| - 1]) + [J.Entry(EventName(last.revision), EventData(last))]
  }

  function EventDeletes(evicted: seq<Logged>): seq<Name> {
    seq(|evicted|, i requires 0 <= i < |evicted| => EventName(evicted[i].revision))
  }

  /** What a commit adds of its own: the state nodes of the block, the derived entries, and the order in which the slots
      are deleted. */
  datatype Extras = Extras(executed: seq<J.Entry>, derived: seq<J.Entry>, order: seq<Name>)

  predicate GoodExtras(x: Extras, dropped: set<nat>) {
    && (forall e :: e in x.executed ==> e.name.StateNode? && e.data == NodeData(e.name.hash))
    && (forall e :: e in x.derived ==> e.name.Extra?)
    && (forall n :: n in x.order ==> n.CanonicalSlot? && n.slot in dropped)
    && (forall at :: at in dropped ==> CanonicalSlot(at) in x.order)
  }

  function PutsOf(s': State, f: Footprint, x: Extras, plan: Plan): seq<J.Entry> {
    Puts(s', f.names) + PathPuts(f.path) + x.derived + EventPuts(plan.events)
  }

  function DeletesOf(x: Extras, log: Log, plan: Plan): seq<Name> {
    x.order + EventDeletes(Evicted(log.events + plan.events, log.capacity))
  }

  lemma {:induction false} LastPutConcat(a: seq<J.Entry>, b: seq<J.Entry>, n: Name)
    ensures J.LastPut(a + b, n) == if J.LastPut(b, n).Some? then J.LastPut(b, n) else J.LastPut(a, n)
  {
    if b == [] {
      assert a + b == a;
    } else {
      assert (a + b)[..|a + b| - 1] == a + b[..|b| - 1];
      LastPutConcat(a, b[..|b| - 1], n);
    }
  }

  lemma {:induction false} NoPut(entries: seq<J.Entry>, n: Name)
    requires forall e :: e in entries ==> e.name != n
    ensures J.LastPut(entries, n).None?
  {
    if entries != [] { NoPut(entries[..|entries| - 1], n); }
  }

  lemma {:induction false} LastPutIsIn(entries: seq<J.Entry>, n: Name)
    requires J.LastPut(entries, n).Some?
    ensures J.Entry(n, J.LastPut(entries, n).value) in entries
  {
    if entries[|entries| - 1].name != n { LastPutIsIn(entries[..|entries| - 1], n); }
  }

  lemma {:induction false} PutsAre(s: State, names: seq<Name>, n: Name)
    requires forall m :: m in names ==> Lookup(s, m).Some?
    ensures J.LastPut(Puts(s, names), n) == if n in names then Lookup(s, n) else None
  {
    hide Lookup;
    if names != [] {
      var init, last := names[..|names| - 1], names[|names| - 1];
      assert names == init + [last];
      PutsAre(s, init, n);
      LastPutConcat(Puts(s, init), [J.Entry(last, Lookup(s, last).value)], n);
    }
  }

  lemma {:induction false} PathPutsAre(disk: map<nat, Block>, path: seq<Block>, n: Name)
    ensures !n.CanonicalSlot? ==> J.LastPut(PathPuts(path), n).None?
    ensures n.CanonicalSlot? ==>
              var put, after := J.LastPut(PathPuts(path), n), Entered(disk, path);
              if put.Some? then n.slot in after && put.value == BlockData(after[n.slot])
              else (n.slot in after <==> n.slot in disk) && (n.slot in disk ==> after[n.slot] == disk[n.slot])
  {
    if path != [] {
      PathPutsAre(disk, path[1..], n);
      LastPutConcat(PathPuts(path[1..]), [J.Entry(CanonicalSlot(SlotOf(path[0])), BlockData(path[0]))], n);
    }
  }

  lemma {:induction false} EventPutsAre(disk: map<nat, Logged>, added: seq<Logged>, n: Name)
    ensures !n.EventName? ==> J.LastPut(EventPuts(added), n).None?
    ensures n.EventName? ==>
              var put, after := J.LastPut(EventPuts(added), n), Put(disk, added);
              if put.Some? then n.revision in after && put.value == EventData(after[n.revision])
              else
                && (n.revision in after <==> n.revision in disk)
                && (n.revision in disk ==> after[n.revision] == disk[n.revision])
  {
    if added != [] {
      var init, last := added[..|added| - 1], added[|added| - 1];
      EventPutsAre(disk, init, n);
      LastPutConcat(EventPuts(init), [J.Entry(EventName(last.revision), EventData(last))], n);
    }
  }

  lemma EventDeletesAre(evicted: seq<Logged>, n: Name)
    ensures n in EventDeletes(evicted) <==> n.EventName? && n.revision in Revisions(evicted)
  {
    if n.EventName? && n.revision in Revisions(evicted) {
      var i :| 0 <= i < |evicted| && evicted[i].revision == n.revision;
      assert EventDeletes(evicted)[i] == n;
    }
  }

  /** Which part of the batch decides about a name. */
  lemma PutsByName(s': State, f: Footprint, x: Extras, plan: Plan, n: Name)
    requires GoodExtras(x, f.dropped) && forall m :: m in f.names ==> Plain(m) && Lookup(s', m).Some?
    ensures J.LastPut(PutsOf(s', f, x, plan), n) ==
            if n.EventName? then J.LastPut(EventPuts(plan.events), n)
            else if n.Extra? then J.LastPut(x.derived, n)
            else if n.CanonicalSlot? then J.LastPut(PathPuts(f.path), n)
            else if n in f.names then Lookup(s', n) else None
  {
    hide Lookup, J.LastPut, Puts, PathPuts, EventPuts;
    var a, b, c, d := Puts(s', f.names), PathPuts(f.path), x.derived, EventPuts(plan.events);
    LastPutConcat(a + b + c, d, n);
    LastPutConcat(a + b, c, n);
    LastPutConcat(a, b, n);
    PutsAre(s', f.names, n);
    PathPutsAre(map[], f.path, n);
    EventPutsAre(map[], plan.events, n);
    if !n.Extra? { NoPut(c, n); }
  }

  /** What a batch makes of a name. */
  function Updated(was: Option<Data>, puts: seq<J.Entry>, deletes: seq<Name>, n: Name): Option<Data> {
    if n in deletes then None
    else var put := J.LastPut(puts, n); if put.Some? then put else was
  }

  /** The batch turns the metadata of the old state into that of the new one, name by name. */
  lemma BatchCarries(s: State, s': State, f: Footprint, x: Extras, log: Log, events: seq<Event>, n: Name)
    requires Follows(s, s', f) && GoodExtras(x, f.dropped) && PlanOf(log, events).Some?
    ensures var plan := PlanOf(log, events).value;
            var puts, deletes := PutsOf(s', f, x, plan), DeletesOf(x, log, plan);
            && (Governed(n) ==> Expected(s', Publish(log, events), n) == Updated(Expected(s, log, n), puts, deletes, n))
            && (n.StateNode? ==> n !in deletes && J.LastPut(puts, n).None?)
  {
    hide Lookup, J.LastPut, Puts, PathPuts, EventPuts, PutsOf, Entered, EventDeletes, Put, Numbered, Evicted;
    var plan := PlanOf(log, events).value;
    PutsByName(s', f, x, plan, n);
    EventDeletesAre(Evicted(log.events + plan.events, log.capacity), n);
    if n.CanonicalSlot? {
      SlotCarried(s, s', f, x, n);
    } else if n.EventName? {
      EventPutsAre(log.disk, plan.events, n);
    }
  }

  lemma SlotCarried(s: State, s': State, f: Footprint, x: Extras, n: Name)
    requires Follows(s, s', f) && GoodExtras(x, f.dropped) && n.CanonicalSlot?
    ensures Lookup(s', n) ==
            if n in x.order then None
            else if J.LastPut(PathPuts(f.path), n).Some? then J.LastPut(PathPuts(f.path), n)
            else Lookup(s, n)
  {
    PathPutsAre(s.disk, f.path, n);
  }
}
