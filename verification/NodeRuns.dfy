/** What holds after every run of the node, from the first start on. */
module NodeRuns {
  import opened Prelude
  import Forks
  import opened BlockTree
  import opened RequestCodec
  import opened RequestQueue
  import opened Reconcile
  import opened Ledger
  import opened Taint
  import opened NodeState
  import opened NodeInvariant
  import opened NodeSteps
  import opened NodeRestart

  lemma InitialInv()
    ensures Inv(INITIAL)
  {
    var s := INITIAL;
    assert SlotMap(Genesis) == map[0 := Genesis];
    assert Chain(Genesis) == [Genesis];
    assert TreeInv(s) && IndexInv(s) && PointsInv(s) && EventInv(s);
    GenesisIsClean();
    assert RequestInv(s) by {
      forall t | 0 <= t < CONTROL_TYPES ensures Consumed(s.records, Genesis, t) == ItemsOf([], t) == [] {}
      SameControls(Rest([], s.records, Genesis), NO_CONTROLS);
    }
  }

  lemma GenesisIsClean()
    ensures SafetyInv(INITIAL)
  {
  }

  lemma SwitchBranchKeepsInv(cfg: Config, s: State, name: string)
    requires ValidConfig(cfg) && Inv(s) && SwitchBranch(cfg, s, name).Some?
    ensures Inv(SwitchBranch(cfg, s, name).value)
  {
    hide SwitchCanonical, TreeInv, IndexInv, SafetyInv, RequestInv, EventInv, Finalized, TaintedChain;
    assert GoodBranch(s, s.branches[name]);
    SwitchKeepsInv(s, s.branches[name].head, SlotOf(s.branches[name].head));
  }

  lemma RestoreKeepsInv(s: State, name: string)
    requires Inv(s) && Restore(s, name).Some?
    ensures Inv(Restore(s, name).value)
  {
    hide SwitchCanonical, TreeInv, IndexInv, SafetyInv, RequestInv, EventInv, TaintedChain;
    var p := s.checkpoints[name];
    assert GoodPoint(s, p);
    SwitchKeepsInv(s, p.block, p.slot);
  }

  lemma StepKeepsInv(cfg: Config, s: State, step: Step)
    requires ValidConfig(cfg) && Inv(s)
    ensures Inv(After(cfg, s, step))
  {
    hide Inv, Mine, MineBranch, CreateBranch, SwitchBranch, MissSlots, Snapshot, Revert, Checkpoint, Restore,
         AddRequest, Restart, Pause, Resume, ValidConfig;
    if Try(cfg, s, step).Some? {
      match step
      case DoAddRequest(t, data) => AddRequestKeepsInv(cfg, s, t, data);
      case DoMine(kind, built) => MineKeepsInv(cfg, s, kind, built);
      case DoMineBranch(name, built) => MineBranchKeepsInv(cfg, s, name, built);
      case DoCreateBranch(name, number) => CreateBranchKeepsInv(cfg, s, name, number);
      case DoSwitchBranch(name) => SwitchBranchKeepsInv(cfg, s, name);
      case DoMissSlots(count) => MissSlotsKeepsInv(cfg, s, count);
      case DoSnapshot => SnapshotKeepsInv(s);
      case DoRevert(id) => RevertKeepsInv(s, id);
      case DoCheckpoint(name) => CheckpointKeepsInv(s, name);
      case DoRestore(name) => RestoreKeepsInv(s, name);
      case DoPause => FinalityControlsKeepInv(cfg, s);
      case DoResume => FinalityControlsKeepInv(cfg, s);
      case DoRestart => RestartSucceedsIffIntact(cfg, s);
    }
  }

  lemma {:induction false} RunKeepsInv(cfg: Config, s: State, steps: seq<Step>)
    requires ValidConfig(cfg) && Inv(s)
    ensures Inv(Run(cfg, s, steps))
    decreases |steps|
  {
    hide Inv, After;
    if steps != [] {
      StepKeepsInv(cfg, s, steps[0]);
      RunKeepsInv(cfg, After(cfg, s, steps[0]), steps[1..]);
    }
  }

  /** The invariant in every reachable state. */
  lemma ReachableInv(cfg: Config, steps: seq<Step>)
    requires ValidConfig(cfg)
    ensures Inv(Run(cfg, INITIAL, steps))
  {
    hide Inv, Run;
    InitialInv();
    RunKeepsInv(cfg, INITIAL, steps);
  }

  // ----- Requests -------------------------------------------------------------------------------------------

  /** After every run each issued ID is pending or recorded by one canonical block, exactly once in all, and no other ID
      exists. */
  lemma RunHoldsIdsOnce(cfg: Config, steps: seq<Step>, id: nat)
    requires ValidConfig(cfg)
    ensures var s := Run(cfg, INITIAL, steps);
            Occurrences(s.records, s.head, s.queue, id) == (if 1 <= id < s.queue.nextID then 1 else 0) &&
            s.queue.nextID == |s.issued| + 1
  {
    hide Run, TreeInv, IndexInv, SafetyInv, PointsInv, EventInv, Occurrences, FollowsLedger, RecordMatches, WellIssued;
    ReachableInv(cfg, steps);
    var s := Run(cfg, INITIAL, steps);
    IssuedExactlyOnce(s.issued, s.records, s.head, s.queue, id);
  }

  /** After every run every stored block can be made canonical: no error branch of the reconciliation is taken, and the
      queue it leaves is, type by type, the not yet consumed suffix of what was issued, in ID order. */
  lemma RunCanSwitchAnywhere(cfg: Config, steps: seq<Step>, target: Block, targetSlot: nat, t: nat)
    requires ValidConfig(cfg) && t < CONTROL_TYPES
    requires target in Run(cfg, INITIAL, steps).stored
    ensures var s := Run(cfg, INITIAL, steps);
            && SwitchCanonical(s, target, targetSlot).Some?
            && var s' := SwitchCanonical(s, target, targetSlot).value;
               Consumed(s.records, target, t) + s'.queue.Of(t) == ItemsOf(s.issued, t) && Increasing(s'.queue.Of(t))
  {
    hide Run, SwitchCanonical, TreeInv, IndexInv, SafetyInv, PointsInv, EventInv, RequestInv, Rest, FollowsLedger,
         Consumed, ItemsOf, Increasing;
    ReachableInv(cfg, steps);
    var s := Run(cfg, INITIAL, steps);
    SwitchNeverFails(s, target, targetSlot);
    SwitchFrame(s, target, targetSlot);
    var s' := SwitchCanonical(s, target, targetSlot).value;
    RestIsOnLedger(s.issued, s.records, target);
    PrefixAt(s.issued, s.records, target, t);
  }

  /** After every run, mining a block that is already stored leaves every record as it was. */
  lemma RunRemineKeepsRecords(cfg: Config, steps: seq<Step>, kind: Kind, built: Built)
    requires ValidConfig(cfg) && Mine(cfg, Run(cfg, INITIAL, steps), kind, built).Some?
    ensures var s := Run(cfg, INITIAL, steps);
            var s' := Mine(cfg, s, kind, built).value;
            s'.head in s.stored ==> s'.records == s.records
  {
    hide Run, Inv, Mine;
    ReachableInv(cfg, steps);
    MinedRecordIsFixed(cfg, Run(cfg, INITIAL, steps), kind, built);
  }

  // ----- Chain, events and index ----------------------------------------------------------------------------

  /** Folding everything ever published rebuilds the canonical chain. */
  lemma RunReplays(cfg: Config, steps: seq<Step>)
    requires ValidConfig(cfg)
    ensures var s := Run(cfg, INITIAL, steps);
            Replay([Genesis], s.published) == Some(Chain(s.head))
  {
    hide Run, Replay, TreeInv, IndexInv, SafetyInv, PointsInv, RequestInv;
    ReachableInv(cfg, steps);
  }

  /** Every block event carries the slot of its block. */
  predicate Slotted(events: seq<Event>) {
    forall i :: 0 <= i < |events| && events[i].BlockEvent? ==> events[i].slot == SlotOf(events[i].block)
  }

  lemma {:induction false} SwitchIsSlotted(path: seq<Block>)
    ensures Slotted(RemovedEvents(path)) && Slotted(AddedEvents(path))
  {
    if path != [] { SwitchIsSlotted(path[1..]); }
  }

  lemma SwitchStaysSlotted(s: State, target: Block, targetSlot: nat)
    requires Slotted(s.published)
    ensures var r := SwitchCanonical(s, target, targetSlot); r.Some? ==> Slotted(r.value.published)
  {
    hide Reconciled, ValidQueue, Entered, Kept, Dropped;
    var c := Lca(s.head, target);
    SwitchIsSlotted(Above(s.head, c));
    SwitchIsSlotted(Above(target, c));
  }

  lemma MineStaysSlotted(cfg: Config, s: State, kind: Kind, built: Built)
    requires ValidConfig(cfg) && Slotted(s.published)
    ensures var r := Mine(cfg, s, kind, built); r.Some? ==> Slotted(r.value.published)
  {
    hide CanBuildAt, Prepare, ValidRecord, ValidQueue, SafetyForChild, TaintSession, Resolve;
  }

  lemma ClockStaysSlotted(cfg: Config, s: State, count: nat)
    requires ValidConfig(cfg) && Slotted(s.published)
    ensures var r := MissSlots(cfg, s, count); r.Some? ==> Slotted(r.value.published)
    ensures Slotted(Resume(cfg, s).published)
  {
    hide CanBuildAt, Resolve, ResolveAt, MissedEvents;
    MissedHaveNoBlocks(s.slot, count);
  }

  lemma OthersPublishNothing(cfg: Config, s: State, step: Step)
    requires ValidConfig(cfg) && !step.DoMine? && !step.DoMissSlots? && !step.DoResume?
    requires !step.DoSwitchBranch? && !step.DoRevert? && !step.DoRestore?
    ensures After(cfg, s, step).published == s.published
  {
    hide CanBuildAt, ValidRecord, Prepare, SafetyForChild, Enqueue, ValidQueue, Chain, SafetyOf, Finalized, Mine,
         SwitchBranch, Revert, Restore, MissSlots, Resume, RuntimeMetadataValid, ControlMetadataValid,
         RequestMetadataValid;
  }

  lemma RewindStaysSlotted(cfg: Config, s: State, step: Step)
    requires ValidConfig(cfg) && Slotted(s.published) && (step.DoSwitchBranch? || step.DoRevert? || step.DoRestore?)
    ensures Slotted(After(cfg, s, step).published)
  {
    hide Finalized, SwitchCanonical, ValidConfig, Slotted;
    match step
    case DoRevert(id) =>
      if id in s.snapshots { SwitchStaysSlotted(s, s.snapshots[id].block, s.snapshots[id].slot); }
    case DoRestore(name) =>
      if name in s.checkpoints { SwitchStaysSlotted(s, s.checkpoints[name].block, s.checkpoints[name].slot); }
    case DoSwitchBranch(name) =>
      if name in s.branches { SwitchStaysSlotted(s, s.branches[name].head, SlotOf(s.branches[name].head)); }
  }

  /** In every run every block event published carries the slot of its block. */
  lemma {:induction false} RunIsSlotted(cfg: Config, s: State, steps: seq<Step>)
    requires ValidConfig(cfg) && Slotted(s.published)
    ensures Slotted(Run(cfg, s, steps).published)
    decreases |steps|
  {
    hide ValidConfig, Slotted, Mine, MineBranch, CreateBranch, SwitchBranch, MissSlots, Snapshot, Revert, Checkpoint,
         Restore, AddRequest, Restart, Pause, Resume;
    if steps != [] {
      match steps[0] {
        case DoMine(kind, built) => MineStaysSlotted(cfg, s, kind, built);
        case DoMissSlots(count) => ClockStaysSlotted(cfg, s, count);
        case DoResume => ClockStaysSlotted(cfg, s, 0);
        case DoSwitchBranch(_) => RewindStaysSlotted(cfg, s, steps[0]);
        case DoRevert(_) => RewindStaysSlotted(cfg, s, steps[0]);
        case DoRestore(_) => RewindStaysSlotted(cfg, s, steps[0]);
        case _ => OthersPublishNothing(cfg, s, steps[0]);
      }
      RunIsSlotted(cfg, After(cfg, s, steps[0]), steps[1..]);
    }
  }

  function Pops(events: seq<Event>): nat {
    if events == [] then 0
    else (if events[0].BlockEvent? && events[0].removed then 1 else 0) + Pops(events[1..])
  }

  lemma {:induction false} PopsConcat(a: seq<Event>, b: seq<Event>)
    ensures Pops(a + b) == Pops(a) + Pops(b)
  {
    if a == [] {
      assert a + b == b;
    } else {
      assert (a + b)[1..] == a[1..] + b;
      PopsConcat(a[1..], b);
    }
  }

  lemma {:induction false} PopsOfRemoved(path: seq<Block>)
    ensures Pops(RemovedEvents(path)) == |path|
  {
    if path != [] {
      PopsOfRemoved(path[1..]);
      assert RemovedEvents(path)[1..] == RemovedEvents(path[1..]);
    }
  }

  lemma {:induction false} PopsOfAdded(path: seq<Block>)
    ensures Pops(AddedEvents(path)) == 0
  {
    if path != [] {
      PopsOfAdded(path[1..]);
      var last := [BlockEvent(SlotOf(path[0]), path[0], false, false)];
      assert last[1..] == [];
      PopsConcat(AddedEvents(path[1..]), last);
    }
  }

  /** A switch ends in one reorg event whose depth is the number of pops before it, and the pops stop at the lowest
      common ancestor: the block the fold stands on between pops and pushes is above every other common ancestor. */
  lemma ReorgDepthIsPops(oldHead: Block, target: Block, targetSlot: nat)
    requires oldHead != target
    ensures var c := Lca(oldHead, target);
            var events := SwitchEvents(oldHead, target, targetSlot);
            var depth := Pops(events);
            && events[|events| - 1] == Reorg(targetSlot, oldHead, target, depth)
            && depth == Number(oldHead) - Number(c)
            && depth <= |events| && Replay(Chain(oldHead), events[..depth]) == Some(Chain(c))
            && (forall x :: Ancestor(x, oldHead) && Ancestor(x, target) ==> Ancestor(x, c))
  {
    var c := Lca(oldHead, target);
    var removed, added := RemovedEvents(Above(oldHead, c)), AddedEvents(Above(target, c));
    var last := [Reorg(targetSlot, oldHead, target, |Above(oldHead, c)|)];
    PopsOfRemoved(Above(oldHead, c));
    PopsOfAdded(Above(target, c));
    assert last[1..] == [];
    PopsConcat(removed, added);
    PopsConcat(removed + added, last);
    ReplayRemoved(oldHead, c);
    RemovedLength(Above(oldHead, c));
    assert SwitchEvents(oldHead, target, targetSlot) == removed + added + last;
    assert (removed + added + last)[..|removed|] == removed;
    forall x | Ancestor(x, oldHead) && Ancestor(x, target) ensures Ancestor(x, c) { LcaIsLowest(oldHead, target, x); }
    hide *;
  }

  lemma {:induction false} RemovedLength(path: seq<Block>)
    ensures |RemovedEvents(path)| == |path|
  {
    if path != [] { RemovedLength(path[1..]); }
  }

  /** After every run the index maps exactly the slots of the canonical blocks to those blocks, and the index lookup at
      any slot is the parent walk from the head. */
  lemma RunIndexIsExact(cfg: Config, steps: seq<Step>, at: nat)
    requires ValidConfig(cfg)
    ensures var s := Run(cfg, INITIAL, steps);
            && s.index == SlotMap(s.head)
            && (at in s.index <==> exists b :: b in Chain(s.head) && SlotOf(b) == at)
            && (at in s.index ==> s.index[at] in Chain(s.head) && SlotOf(s.index[at]) == at)
            && BlockAtOrBefore(s.index, s.head, at) == ParentWalk(s.head, at)
  {
    hide Run, SafetyInv, PointsInv, RequestInv, EventInv;
    ReachableInv(cfg, steps);
    var s := Run(cfg, INITIAL, steps);
    LookupIsParentWalk(s.head, at);
    SlotMapMeaning(s.head);
    forall b ensures Ancestor(b, s.head) <==> b in Chain(s.head) { AncestorOnChain(b, s.head); }
  }

  /** After every run slots strictly increase along every stored chain, the clock has reached the head, and the frozen
      finality slot is in range while paused and zero otherwise. */
  lemma RunSlotsIncrease(cfg: Config, steps: seq<Step>, a: Block, b: Block)
    requires ValidConfig(cfg) && b in Run(cfg, INITIAL, steps).stored && Ancestor(a, b) && a != b
    ensures var s := Run(cfg, INITIAL, steps);
            && a in s.stored && SlotOf(a) < SlotOf(b) && SlotOf(s.head) <= s.slot
            && (if s.paused then s.finalitySlot <= s.slot else s.finalitySlot == 0)
  {
    hide Run, IndexInv, SafetyInv, PointsInv, RequestInv, EventInv;
    ReachableInv(cfg, steps);
    AncestorSlot(a, b);
    AncestorsAreStored(Run(cfg, INITIAL, steps), b);
  }

  /** After every run a stored block is tainted exactly when it or an ancestor was made unsafely, its first unsafe block
      is the earliest such ancestor, its reasons are their union, and the session covers them all. */
  lemma RunTaintIsInherited(cfg: Config, steps: seq<Step>, b: Block)
    requires ValidConfig(cfg) && b in Run(cfg, INITIAL, steps).stored
    ensures var s := Run(cfg, INITIAL, steps);
            b in s.safety && Describes(s.safety[b], b) && Covers(s.session, s.stored)
  {
    hide Run, TreeInv, IndexInv, PointsInv, RequestInv, EventInv, Describes, Covers;
    ReachableInv(cfg, steps);
  }

  // ----- Restart --------------------------------------------------------------------------------------------

  /** After every run a restart is accepted exactly when no canonical slot was lost on disk and the next slot can still
      be built, and it then changes nothing but forgetting the snapshots. */
  lemma RunRestarts(cfg: Config, steps: seq<Step>)
    requires ValidConfig(cfg)
    ensures var s := Run(cfg, INITIAL, steps);
            && (Restart(cfg, s).Some? <==> Lost(s) == {} && CanBuildAt(cfg, s.slot + 1))
            && (Restart(cfg, s).Some? ==> Restart(cfg, s).value == s.(snapshots := map[], nextSnapshot := 0))
  {
    hide Run, Restart, TreeInv, SafetyInv, PointsInv, RequestInv, EventInv, IndexInv, Lost, CanBuildAt;
    ReachableInv(cfg, steps);
    var s := Run(cfg, INITIAL, steps);
    NothingLost(s);
    RestartSucceedsIffIntact(cfg, s);
  }

  /** Once no block can be built for the next slot, nothing changes the node any more. */
  lemma {:induction false} NoSlotLeftIsFinal(cfg: Config, s: State, steps: seq<Step>)
    requires ValidConfig(cfg) && !CanBuildAt(cfg, s.slot + 1)
    ensures Run(cfg, s, steps) == s
    decreases |steps|
  {
    hide CanBuildAt, ValidConfig;
    if steps != [] {
      assert After(cfg, s, steps[0]) == s;
      NoSlotLeftIsFinal(cfg, s, steps[1..]);
    }
  }

  // ----- A lost slot ----------------------------------------------------------------------------------------

  const PLAIN := Built(false, Payload([], 0), None)

  function FirstBlock(kind: Kind): Block {
    Child(Genesis, 1, kind, Payload([], 0), None, None)
  }

  lemma PlainIsPrepared(q: Queue)
    ensures Prepare(None, false, None, q) == Some(Prepared(None, Record(None, None, NO_CONTROLS), q, false))
    ensures ValidRecord(Record(None, None, NO_CONTROLS))
  {
    hide Accepted, Parsed, Marshal, Appended, Taken, Left, Decodable;
  }

  lemma MineFirst(cfg: Config, s: State)
    requires ValidConfig(cfg) && CanBuildAt(cfg, 1) && s.head == Genesis && s.slot == 0
    ensures var s' := After(cfg, s, DoMine(Mined, PLAIN));
            && s'.head == FirstBlock(Mined) && s'.slot == 1 && s'.branches == s.branches
            && s'.stored == s.stored + {s'.head} && s'.disk == s.disk[1 := s'.head] && s'.paused == s.paused
  {
    hide CanBuildAt, Prepare, ValidRecord, ValidQueue, SafetyForChild, TaintSession, FinalizedBetween;
    PlainIsPrepared(s.queue);
    assert Try(cfg, s, DoMine(Mined, PLAIN)) == Mine(cfg, s, Mined, PLAIN);
  }

  lemma BranchFirst(cfg: Config, s: State)
    requires ValidConfig(cfg) && CanBuildAt(cfg, s.slot + 1) && cfg.genesisTime + cfg.slotDuration <= MAX_UINT64
    requires "b" in s.branches && s.branches["b"].head == Genesis && Genesis in s.stored
    ensures var s' := After(cfg, s, DoMineBranch("b", PLAIN));
            && "b" in s'.branches && s'.branches["b"].head == FirstBlock(Fork("b")) && s'.head == s.head
            && s'.slot == s.slot && s'.stored == s.stored + {FirstBlock(Fork("b"))}
            && s'.index == s.index && s'.disk == s.disk && s'.paused == s.paused
  {
    hide Prepare, ValidRecord, SafetyForChild, CanBuildAt;
    PlainIsPrepared(EMPTY_QUEUE);
    assert Try(cfg, s, DoMineBranch("b", PLAIN)) == MineBranch(cfg, s, "b", PLAIN);
  }

  lemma BranchAtGenesis(cfg: Config)
    requires ValidConfig(cfg) && CanBuildAt(cfg, 1)
    ensures After(cfg, INITIAL, DoCreateBranch("b", 0)) ==
            INITIAL.(branches := map["b" := BranchItem(Genesis, Genesis, false)])
  {
    assert Chain(Genesis) == [Genesis];
    assert Try(cfg, INITIAL, DoCreateBranch("b", 0)) == CreateBranch(cfg, INITIAL, "b", 0);
  }

  /** Two blocks at slot 1, one canonical and one on a branch: switching to the branch loses slot 1 on disk, and the
      next restart is refused. */
  lemma SwitchCanLoseSlot(cfg: Config)
    requires ValidConfig(cfg) && CanBuildAt(cfg, 2)
    ensures var steps := [DoCreateBranch("b", 0), DoMine(Mined, PLAIN), DoMineBranch("b", PLAIN), DoSwitchBranch("b")];
            var s := Run(cfg, INITIAL, steps);
            s.head == FirstBlock(Fork("b")) && 1 in Lost(s) && Restart(cfg, s).None?
  {
    BuildableBelow(cfg);
    hide Inv, Restart, After, CanBuildAt, Lost, Run;
    var s1 := After(cfg, INITIAL, DoCreateBranch("b", 0));
    var s2 := After(cfg, s1, DoMine(Mined, PLAIN));
    var s3 := After(cfg, s2, DoMineBranch("b", PLAIN));
    var s4 := After(cfg, s3, DoSwitchBranch("b"));
    var steps := [DoCreateBranch("b", 0), DoMine(Mined, PLAIN), DoMineBranch("b", PLAIN), DoSwitchBranch("b")];
    RunOfFour(cfg, INITIAL, steps[0], steps[1], steps[2], steps[3]);
    InitialInv();
    StepKeepsInv(cfg, INITIAL, steps[0]);
    StepKeepsInv(cfg, s1, steps[1]);
    StepKeepsInv(cfg, s2, steps[2]);
    BranchAtGenesis(cfg);
    MineFirst(cfg, s1);
    BranchFirst(cfg, s2);
    LoseFirstSlot(cfg, s3);
    RunRestarts(cfg, steps);
  }

  lemma RunStep(cfg: Config, s: State, steps: seq<Step>)
    requires ValidConfig(cfg) && steps != []
    ensures Run(cfg, s, steps) == Run(cfg, After(cfg, s, steps[0]), steps[1..])
  {
    hide After;
  }

  lemma RunOfFour(cfg: Config, s0: State, a: Step, b: Step, c: Step, d: Step)
    requires ValidConfig(cfg)
    ensures Run(cfg, s0, [a, b, c, d]) == After(cfg, After(cfg, After(cfg, After(cfg, s0, a), b), c), d)
  {
    hide After;
    var s1 := After(cfg, s0, a);
    var s2 := After(cfg, s1, b);
    var s3 := After(cfg, s2, c);
    assert [a, b, c, d][1..] == [b, c, d] && [b, c, d][1..] == [c, d] && [c, d][1..] == [d] && [d][1..] == [];
    RunStep(cfg, s0, [a, b, c, d]);
    RunStep(cfg, s1, [b, c, d]);
    RunStep(cfg, s2, [c, d]);
    RunStep(cfg, s3, [d]);
  }

  lemma BuildableBelow(cfg: Config)
    requires ValidConfig(cfg) && CanBuildAt(cfg, 2)
    ensures CanBuildAt(cfg, 1) && cfg.genesisTime + cfg.slotDuration <= MAX_UINT64
  {
    BuildGuardIsTimestampFits(cfg, 1);
  }

  lemma LoseFirstSlot(cfg: Config, s: State)
    requires ValidConfig(cfg) && CanBuildAt(cfg, 2) && Inv(s) && s.head == FirstBlock(Mined) && s.slot == 1 && !s.paused
    requires "b" in s.branches && s.branches["b"].head == FirstBlock(Fork("b")) && FirstBlock(Fork("b")) in s.stored
    ensures var s' := After(cfg, s, DoSwitchBranch("b"));
            s'.head == FirstBlock(Fork("b")) && 1 in Lost(s')
  {
    hide SwitchCanonical, Inv, Lost, CanBuildAt;
    var a, b := FirstBlock(Mined), FirstBlock(Fork("b"));
    assert Lca(a, b) == Genesis && Above(a, Genesis) == [a] && Above(b, Genesis) == [b];
    assert SlotOf([a][0]) == 1 && SlotOf([b][0]) == 1;
    assert 1 in SlotsOf([a]) && 1 in SlotsOf([b]);
    SwitchLosesSharedSlots(s, b, 1);
    SwitchFrame(s, b, 1);
    assert Finalized(cfg, s).block == Genesis by { NothingFinalizedYet(cfg, s); }
    assert Try(cfg, s, DoSwitchBranch("b")) == SwitchBranch(cfg, s, "b") == SwitchCanonical(s, b, 1);
  }

  lemma NothingFinalizedYet(cfg: Config, s: State)
    requires ValidConfig(cfg) && Inv(s) && s.slot == 1
    ensures Finalized(cfg, s).block == Genesis
  {
    hide SafetyInv, PointsInv, RequestInv, EventInv;
    SlotMapMeaning(s.head);
    GenesisIsAncestor(s.head);
    assert SubtractSlots(FinalitySlot(s, 1), 2 * cfg.slotsPerEpoch) == 0;
  }

  lemma SnapshotAtStart(cfg: Config)
    requires ValidConfig(cfg) && CanBuildAt(cfg, 1)
    ensures After(cfg, INITIAL, DoSnapshot) ==
            INITIAL.(nextSnapshot := 1, snapshots := map[1 := Point(Genesis, 0, false, false)])
  {
    assert Try(cfg, INITIAL, DoSnapshot) == Snapshot(INITIAL);
  }

  lemma MineKeepsSnapshots(cfg: Config, s: State)
    requires ValidConfig(cfg)
    ensures After(cfg, s, DoMine(Mined, PLAIN)).snapshots == s.snapshots
  {
    hide CanBuildAt, Prepare, ValidRecord, ValidQueue, SafetyForChild, TaintSession, FinalizedBetween;
  }

  lemma RevertFirst(cfg: Config, s: State)
    requires ValidConfig(cfg) && CanBuildAt(cfg, s.slot + 1) && Inv(s)
    requires 1 in s.snapshots && s.snapshots[1] == Point(Genesis, 0, false, false)
    ensures var s' := After(cfg, s, DoRevert(1));
            s'.head == Genesis && s'.slot == 0 && s'.stored == s.stored
  {
    hide SwitchCanonical, IndexInv, SafetyInv, PointsInv, RequestInv, EventInv, CanBuildAt;
    SwitchKeepsInv(s, Genesis, 0);
    SwitchFrame(s, Genesis, 0);
    assert Try(cfg, s, DoRevert(1)) == Revert(s, 1);
  }

  /** Mining can rebuild a block that is already stored: snapshot, mine, revert and mine the same again. */
  lemma RunCanRemine(cfg: Config)
    requires ValidConfig(cfg) && CanBuildAt(cfg, 2)
    ensures var s := After(cfg, After(cfg, After(cfg, INITIAL, DoSnapshot), DoMine(Mined, PLAIN)), DoRevert(1));
            var again := After(cfg, s, DoMine(Mined, PLAIN));
            again.head == FirstBlock(Mined) && again.head != s.head && again.head in s.stored
  {
    BuildableBelow(cfg);
    hide Inv, After, CanBuildAt;
    InitialInv();
    var s1 := After(cfg, INITIAL, DoSnapshot);
    var s2 := After(cfg, s1, DoMine(Mined, PLAIN));
    StepKeepsInv(cfg, INITIAL, DoSnapshot);
    StepKeepsInv(cfg, s1, DoMine(Mined, PLAIN));
    SnapshotAtStart(cfg);
    MineFirst(cfg, s1);
    MineKeepsSnapshots(cfg, s1);
    RevertFirst(cfg, s2);
    MineFirst(cfg, After(cfg, s2, DoRevert(1)));
  }

  // ----- Mining succeeds ------------------------------------------------------------------------------------

  /** Requests of the builder types, which only a numbered header may carry. */
  predicate CarriesBuilderRequests(list: RequestList) {
    list.Some? && exists i :: 0 <= i < |list.value| && |list.value[i]| > 0 && list.value[i][0] >= BUILDER_DEPOSIT
  }

  lemma HeaderCommits(native: RequestList, numbered: bool)
    ensures VerifyRequestsHash(native, numbered, native) <==> numbered || !CarriesBuilderRequests(native)
  {
  }

  lemma MineSucceeds(cfg: Config, s: State, kind: Kind, built: Built)
    requires ValidConfig(cfg) && RequestInv(s)
    ensures Mine(cfg, s, kind, built).Some? <==>
            && CanBuildAt(cfg, s.slot + 1) && AcceptedList(built.native)
            && VerifyRequestsHash(built.native, built.numbered, built.native)
  {
    hide RequestInv, CanBuildAt, Prepare, ValidRecord, ValidQueue, SafetyForChild, TaintSession, FinalizedBetween,
         AcceptedList, VerifyRequestsHash;
    QueueIsValid(s);
    PrepareSucceeds(built.native, built.numbered, built.native, s.queue);
    if Prepare(built.native, built.numbered, built.native, s.queue).Some? {
      PreparedIsValid(built.numbered, built.native, s.queue);
    }
  }

  /** After every run mining commits exactly when a slot is left and the native requests are well formed, with builder
      requests only under a numbered header. The queue and the bookkeeping never stand in its way. */
  lemma RunMineSucceeds(cfg: Config, steps: seq<Step>, kind: Kind, built: Built)
    requires ValidConfig(cfg) && !kind.Fork?
    ensures var s := Run(cfg, INITIAL, steps);
            Try(cfg, s, DoMine(kind, built)).Some? <==>
            && CanBuildAt(cfg, s.slot + 1) && AcceptedList(built.native)
            && (built.numbered || !CarriesBuilderRequests(built.native))
  {
    hide Run, TreeInv, IndexInv, SafetyInv, PointsInv, RequestInv, EventInv, CanBuildAt, AcceptedList,
         VerifyRequestsHash, CarriesBuilderRequests, Mine, ValidConfig;
    ReachableInv(cfg, steps);
    HeaderCommits(built.native, built.numbered);
    MineSucceeds(cfg, Run(cfg, INITIAL, steps), kind, built);
  }

  /** The division guard before a block is built is exactly that its timestamp fits in 64 bits. */
  lemma BuildGuardIsTimestampFits(cfg: Config, slot: nat)
    requires ValidConfig(cfg)
    ensures CanBuildAt(cfg, slot) <==> cfg.genesisTime + slot * cfg.slotDuration <= MAX_UINT64
  {
    Forks.FitsIffProductFits(slot, MAX_UINT64 - cfg.genesisTime, cfg.slotDuration);
    Forks.MulMonotone(1, cfg.slotDuration, slot);
  }

  // ----- What is lost on disk -------------------------------------------------------------------------------

  lemma MineLosesNothing(cfg: Config, s: State, kind: Kind, built: Built)
    requires ValidConfig(cfg) && Inv(s) && Mine(cfg, s, kind, built).Some?
    ensures Lost(Mine(cfg, s, kind, built).value) == Lost(s)
  {
    hide ValidRecord, Prepare, CanBuildAt, FinalizedBetween, SafetyForChild, TaintSession, SafetyInv, PointsInv,
         RequestInv, EventInv;
    SlotMapMeaning(s.head);
    assert s.slot + 1 !in s.index;
  }

  lemma OthersLoseNothing(cfg: Config, s: State, step: Step)
    requires ValidConfig(cfg) && Inv(s) && Try(cfg, s, step).Some?
    requires !step.DoMine? && !step.DoSwitchBranch? && !step.DoRevert? && !step.DoRestore? && !step.DoRestart?
    ensures Lost(After(cfg, s, step)) == Lost(s)
  {
    hide CanBuildAt, Inv, ValidRecord, Prepare, SafetyForChild, Enqueue, ValidQueue, Chain, SafetyOf, Finalized,
         FinalizedBetween, MissedEvents, TransitionEvents, Mine, SwitchBranch, Revert, Restore, Restart;
  }

  /** Only a switch can lose a slot on disk or find a lost one again. */
  lemma OnlySwitchesLose(cfg: Config, s: State, step: Step)
    requires ValidConfig(cfg) && Inv(s) && !step.DoSwitchBranch? && !step.DoRevert? && !step.DoRestore?
    ensures Lost(After(cfg, s, step)) == Lost(s)
  {
    hide Inv, ValidConfig, Mine, MineBranch, CreateBranch, SwitchBranch, MissSlots, Snapshot, Revert, Checkpoint,
         Restore, AddRequest, Restart, Pause, Resume, Lost;
    if Try(cfg, s, step).Some? {
      match step
      case DoMine(kind, built) => MineLosesNothing(cfg, s, kind, built);
      case DoRestart => RestartSucceedsIffIntact(cfg, s); SameLost(s);
      case _ => OthersLoseNothing(cfg, s, step);
    }
  }

  lemma SameLost(s: State)
    ensures Lost(s.(snapshots := map[], nextSnapshot := 0)) == Lost(s)
  {
  }

  /** Missing slots announces each of them, in order. */
  lemma {:induction false} MissedEventsAreEach(start: nat, count: nat)
    ensures |MissedEvents(start, count)| == count
    ensures forall i :: 0 <= i < count ==> MissedEvents(start, count)[i] == MissedSlot(start + 1 + i)
  {
    if count > 0 { MissedEventsAreEach(start, count - 1); }
  }

  // ----- Histories ------------------------------------------------------------------------------------------

  /** Nothing stored, issued, published or tainted is forgotten. */
  predicate Grows(s: State, s': State) {
    && s.stored <= s'.stored && s.issued <= s'.issued && s.published <= s'.published
    && (s.session.tainted ==> s'.session.tainted) && s.session.reasons <= s'.session.reasons
    && (s.session.firstUnsafe.Some? ==> s'.session.firstUnsafe == s.session.firstUnsafe)
  }

  lemma BlocksGrow(cfg: Config, s: State, kind: Kind, name: string, built: Built)
    requires ValidConfig(cfg)
    ensures var m := Mine(cfg, s, kind, built); m.Some? ==> Grows(s, m.value)
    ensures var m := MineBranch(cfg, s, name, built); m.Some? ==> Grows(s, m.value)
  {
    hide CanBuildAt, Prepare, ValidRecord, ValidQueue, SafetyForChild, FinalizedBetween, Named;
  }

  lemma RequestsGrow(cfg: Config, s: State, t: nat, data: Bytes)
    requires ValidConfig(cfg)
    ensures var m := AddRequest(cfg, s, t, data); m.Some? ==> Grows(s, m.value)
    ensures Grows(s, Pause(s))
  {
  }

  lemma ClockGrows(cfg: Config, s: State, count: nat)
    requires ValidConfig(cfg)
    ensures var m := MissSlots(cfg, s, count); m.Some? ==> Grows(s, m.value)
    ensures Grows(s, Resume(cfg, s))
  {
    hide CanBuildAt, FinalizedBetween, MissedEvents, TransitionEvents, ResolveAt;
  }

  lemma PointsGrow(cfg: Config, s: State, name: string, number: nat)
    requires ValidConfig(cfg)
    ensures var m := CreateBranch(cfg, s, name, number); m.Some? ==> Grows(s, m.value)
    ensures var m := Checkpoint(s, name); m.Some? ==> Grows(s, m.value)
  {
    hide Finalized, Chain, SafetyOf;
  }

  lemma MemoryGrows(cfg: Config, s: State)
    requires ValidConfig(cfg)
    ensures var m := Snapshot(s); m.Some? ==> Grows(s, m.value)
    ensures var m := Restart(cfg, s); m.Some? ==> Grows(s, m.value)
  {
    hide SafetyOf, RuntimeMetadataValid, ControlMetadataValid, RequestMetadataValid;
  }

  /** No step forgets a stored block, an issued ID, a published event or a taint; the first unsafe block of the session
      never changes once set. */
  lemma HistoryGrows(cfg: Config, s: State, step: Step)
    requires ValidConfig(cfg)
    ensures Grows(s, After(cfg, s, step))
  {
    hide Mine, MineBranch, CreateBranch, SwitchBranch, MissSlots, Snapshot, Revert, Checkpoint, Restore, AddRequest,
         Restart, Pause, Resume, ValidConfig;
    match step
    case DoMine(kind, built) => BlocksGrow(cfg, s, kind, "", built);
    case DoMineBranch(name, built) => BlocksGrow(cfg, s, Mined, name, built);
    case DoAddRequest(t, data) => RequestsGrow(cfg, s, t, data);
    case DoMissSlots(count) => ClockGrows(cfg, s, count);
    case DoPause => RequestsGrow(cfg, s, 0, []);
    case DoResume => ClockGrows(cfg, s, 0);
    case DoCreateBranch(name, number) => PointsGrow(cfg, s, name, number);
    case DoCheckpoint(name) => PointsGrow(cfg, s, name, 0);
    case DoSnapshot => MemoryGrows(cfg, s);
    case DoRestart => MemoryGrows(cfg, s);
    case _ => SwitchGrows(cfg, s, step);
  }

  lemma SwitchCanonicalGrows(s: State, target: Block, targetSlot: nat)
    ensures var m := SwitchCanonical(s, target, targetSlot); m.Some? ==> Grows(s, m.value)
  {
    hide Reconciled, ValidQueue, Entered, Kept, Dropped, SwitchEvents;
  }

  lemma SwitchGrows(cfg: Config, s: State, step: Step)
    requires ValidConfig(cfg) && (step.DoRevert? || step.DoRestore? || step.DoSwitchBranch?)
    ensures Grows(s, After(cfg, s, step))
  {
    hide Finalized, SwitchCanonical, ValidConfig;
    match step
    case DoRevert(id) => if id in s.snapshots { SwitchCanonicalGrows(s, s.snapshots[id].block, s.snapshots[id].slot); }
    case DoRestore(name) =>
      if name in s.checkpoints { SwitchCanonicalGrows(s, s.checkpoints[name].block, s.checkpoints[name].slot); }
    case DoSwitchBranch(name) =>
      if name in s.branches { SwitchCanonicalGrows(s, s.branches[name].head, SlotOf(s.branches[name].head)); }
  }
}
