/** Every step keeps the invariant, so every run does. */
module NodeSteps {
  import opened Prelude
  import opened BlockTree
  import opened RequestQueue
  import opened Reconcile
  import opened Ledger
  import opened Taint
  import opened NodeState
  import opened NodeInvariant

  // ----- Frames ---------------------------------------------------------------------------------------------

  lemma IndexFrame(s: State, s': State)
    requires IndexInv(s) && s'.head == s.head && s'.index == s.index && s'.disk == s.disk
    ensures IndexInv(s')
  {
  }

  lemma SafetyFrame(s: State, s': State)
    requires SafetyInv(s) && s'.stored == s.stored && s'.safety == s.safety && s'.session == s.session
    ensures SafetyInv(s')
  {
  }

  lemma RequestFrame(s: State, s': State)
    requires RequestInv(s) && s'.stored == s.stored && s'.records == s.records && s'.issued == s.issued
    requires QueueMatches(s.issued, s.records, s'.head, s'.queue)
    ensures RequestInv(s')
  {
  }

  lemma PointsFrame(s: State, s': State)
    requires PointsInv(s) && s.stored <= s'.stored
    requires s'.snapshots == s.snapshots && s'.nextSnapshot == s.nextSnapshot
    requires s'.checkpoints == s.checkpoints && s'.branches == s.branches
    ensures PointsInv(s')
  {
  }

  /** A step that only moves the clock, the finality controls, the named points or the event log. */
  lemma QuietStep(s: State, s': State, more: seq<Event>)
    requires Inv(s) && TreeInv(s') && PointsInv(s')
    requires s'.stored == s.stored && s'.head == s.head && s'.index == s.index && s'.disk == s.disk
    requires s'.safety == s.safety && s'.session == s.session
    requires s'.queue == s.queue && s'.records == s.records && s'.issued == s.issued
    requires s'.published == s.published + more && NoBlocks(more)
    ensures Inv(s')
  {
    hide TreeInv, PointsInv, IndexInv, SafetyInv, QueueMatches, NoBlocks;
    IndexFrame(s, s');
    SafetyFrame(s, s');
    RequestFrame(s, s');
    ReplayNoBlocks(Chain(s.head), more);
    EventsAppended(s, s', more);
  }

  // ----- Mining and control blocks --------------------------------------------------------------------------

  /** What a prepared block is, as the rest of the proof uses it. */
  lemma PreparedFacts(built: Built, q: Queue)
    requires Prepare(built.native, built.numbered, built.native, q).Some?
    ensures var p := Prepare(built.native, built.numbered, built.native, q).value;
            && p.record.native == built.native && p.record.requests == p.requests
            && (p.controlled <==> p.requests != built.native)
            && p.remaining.nextID == q.nextID
            && (forall t :: 0 <= t < CONTROL_TYPES ==> p.record.controls.Of(t) + p.remaining.Of(t) == q.Of(t))
  {
    PrepareConserves(built.native, built.numbered, built.native, q);
    if built.native.Some? { PreparedList(built.native, built.numbered, built.native, q); }
  }

  lemma ReasonsAreOwn(kind: Kind, b: Block)
    requires b.Child? && b.kind == kind
    ensures Named(UnsafeReasons(kind, b.requests != b.native)) == OwnReasons(b)
    ensures UnsafeReasons(kind, b.requests != b.native) == [] <==> OwnReasons(b) == {}
  {
  }

  /** Re-mining a stored block writes the record it already has. */
  lemma MinedRecordIsFixed(cfg: Config, s: State, kind: Kind, built: Built)
    requires ValidConfig(cfg) && Inv(s) && Mine(cfg, s, kind, built).Some?
    ensures var s' := Mine(cfg, s, kind, built).value;
            s'.head in s.stored ==> s'.records == s.records
  {
    hide ValidRecord, ValidQueue, QueueMatches, Prepare, CanBuildAt, FinalizedBetween, SafetyForChild, TaintSession,
         RequestInv, TreeInv, SafetyInv, PointsInv, EventInv, IndexInv, FollowsLedger;
    var p := Prepare(built.native, built.numbered, built.native, s.queue).value;
    var b := NewBlock(s, kind, built, p);
    if b in s.stored {
      PreparedFacts(built, s.queue);
      StoredRecord(s, b);
      RefillIsSame(s.issued, s.records, b, s.queue, p.record, p.remaining);
    }
  }

  lemma StoredRecord(s: State, b: Block)
    requires RequestInv(s) && b in s.stored && b.Child?
    ensures b in s.records && ValidRecord(s.records[b])
    ensures s.records[b].native == b.native && s.records[b].requests == b.requests
    ensures FollowsLedger(s.issued, s.records, b) && QueueMatches(s.issued, s.records, s.head, s.queue)
  {
    hide ValidRecord, FollowsLedger, QueueMatches;
  }

  lemma RequestsAfterMining(s: State, s': State, b: Block, record: Record)
    requires TreeInv(s) && RequestInv(s) && b.Child? && b.parent == s.head && RecordMatches(b, record)
    requires b in s.stored ==> record == s.records[b]
    requires s'.queue.nextID == s.queue.nextID
    requires forall t :: 0 <= t < CONTROL_TYPES ==> record.controls.Of(t) + s'.queue.Of(t) == s.queue.Of(t)
    requires s'.stored == s.stored + {b} && s'.head == b && s'.records == s.records[b := record]
    requires s'.issued == s.issued
    ensures RequestInv(s')
  {
    hide RecordMatches, QueueMatches, FollowsLedger, WellIssued, SlotsIncrease, Consumed;
    ChainsKeepControls(s, b, record);
    ChainsKeepFollowing(s, b, record);
    FillKeepsQueue(s.issued, s.records, b, s.queue, record, s'.queue);
    MatchingFollows(s');
    assert s'.records.Keys == s'.stored - {Genesis};
  }

  lemma MineKeepsRequests(cfg: Config, s: State, kind: Kind, built: Built)
    requires ValidConfig(cfg) && Inv(s) && Mine(cfg, s, kind, built).Some?
    ensures RequestInv(Mine(cfg, s, kind, built).value)
  {
    hide ValidRecord, ValidQueue, Prepare, CanBuildAt, FinalizedBetween, SafetyForChild, TaintSession, RequestInv,
         TreeInv, SafetyInv, PointsInv, EventInv, IndexInv;
    var p := Prepare(built.native, built.numbered, built.native, s.queue).value;
    var b := NewBlock(s, kind, built, p);
    var s' := Mine(cfg, s, kind, built).value;
    PreparedFacts(built, s.queue);
    MinedRecordIsFixed(cfg, s, kind, built);
    if b in s.stored { assert s'.records[b] == p.record; }
    RequestsAfterMining(s, s', b, p.record);
  }

  lemma MatchingFollows(s: State)
    requires QueueMatches(s.issued, s.records, s.head, s.queue)
    ensures FollowsLedger(s.issued, s.records, s.head)
  {
  }

  lemma MineKeepsTree(cfg: Config, s: State, kind: Kind, built: Built)
    requires ValidConfig(cfg) && TreeInv(s) && IndexInv(s) && Mine(cfg, s, kind, built).Some?
    ensures TreeInv(Mine(cfg, s, kind, built).value) && IndexInv(Mine(cfg, s, kind, built).value)
  {
    hide ValidRecord, Prepare, CanBuildAt, FinalizedBetween, SafetyForChild, TaintSession;
  }

  lemma MineKeepsSafety(cfg: Config, s: State, kind: Kind, built: Built)
    requires ValidConfig(cfg) && TreeInv(s) && SafetyInv(s) && Mine(cfg, s, kind, built).Some?
    ensures SafetyInv(Mine(cfg, s, kind, built).value)
  {
    hide ValidRecord, Prepare, CanBuildAt, FinalizedBetween, SafetyForChild, TaintSession, Named, OwnReasons,
         UnsafeReasons;
    var p := Prepare(built.native, built.numbered, built.native, s.queue).value;
    var b := NewBlock(s, kind, built, p);
    PreparedFacts(built, s.queue);
    ReasonsAreOwn(kind, b);
    SafetyAfterStoring(s, Mine(cfg, s, kind, built).value, b, UnsafeReasons(kind, p.controlled));
  }

  lemma MineKeepsEvents(cfg: Config, s: State, kind: Kind, built: Built)
    requires ValidConfig(cfg) && EventInv(s) && Mine(cfg, s, kind, built).Some?
    ensures EventInv(Mine(cfg, s, kind, built).value)
  {
    hide ValidRecord, Prepare, CanBuildAt, SafetyForChild, TaintSession, Resolve;
    var s' := Mine(cfg, s, kind, built).value;
    var b := s'.head;
    var e := [BlockEvent(b.slot, b, false, kind.Override?)];
    var more := FinalizedBetween(cfg, s, s.slot, b.slot);
    assert e[1..] == [];
    ReplayConcat(Chain(s.head), e, more);
    ReplayNoBlocks(Chain(b), more);
    assert s'.published == s.published + (e + more);
    EventsAppended(s, s', e + more);
  }

  lemma MineKeepsInv(cfg: Config, s: State, kind: Kind, built: Built)
    requires ValidConfig(cfg) && Inv(s) && Mine(cfg, s, kind, built).Some?
    ensures Inv(Mine(cfg, s, kind, built).value)
  {
    MineKeepsRequests(cfg, s, kind, built);
    MineKeepsTree(cfg, s, kind, built);
    MineKeepsSafety(cfg, s, kind, built);
    MineKeepsEvents(cfg, s, kind, built);
    var s' := Mine(cfg, s, kind, built).value;
    assert PointsInv(s') by {
      hide ValidRecord, Prepare, CanBuildAt, FinalizedBetween, SafetyForChild, TaintSession;
      PointsFrame(s, s');
    }
    hide *;
  }

  // ----- Branch mining --------------------------------------------------------------------------------------

  lemma BranchRecordIsEmpty(built: Built)
    requires Prepare(built.native, built.numbered, built.native, EMPTY_QUEUE).Some?
    ensures var p := Prepare(built.native, built.numbered, built.native, EMPTY_QUEUE).value;
            p.record.controls == NO_CONTROLS && p.requests == built.native
  {
    PreparedFacts(built, EMPTY_QUEUE);
    var p := Prepare(built.native, built.numbered, built.native, EMPTY_QUEUE).value;
    forall t | 0 <= t < CONTROL_TYPES ensures p.record.controls.Of(t) == NO_CONTROLS.Of(t) {
      assert |p.record.controls.Of(t)| + |p.remaining.Of(t)| == |EMPTY_QUEUE.Of(t)|;
    }
    SameControls(p.record.controls, NO_CONTROLS);
    if built.native.Some? { PreparedList(built.native, built.numbered, built.native, EMPTY_QUEUE); }
  }

  lemma EmptyRecordIsFixed(b: Block, r: Record, record: Record)
    requires RecordMatches(b, r) && RecordMatches(b, record) && record.controls == NO_CONTROLS
    ensures r == record
  {
    hide ValidRecord, ControlCount;
    forall t | 0 <= t < CONTROL_TYPES ensures r.controls.Of(t) == record.controls.Of(t) {
      RecordCounts(r, t);
      RecordCounts(record, t);
      assert |record.controls.Of(t)| == 0;
    }
    SameControls(r.controls, record.controls);
  }

  lemma BranchBlockFollows(s: State, b: Block, records': Records)
    requires b.Child? && FollowsLedger(s.issued, records', b.parent) && ControlsOf(records', b) == NO_CONTROLS
    ensures FollowsLedger(s.issued, records', b)
  {
  }

  lemma QueueStaysMatched(s: State, records': Records)
    requires QueueMatches(s.issued, s.records, s.head, s.queue) && FollowsLedger(s.issued, records', s.head)
    requires forall t :: Consumed(records', s.head, t) == Consumed(s.records, s.head, t)
    ensures QueueMatches(s.issued, records', s.head, s.queue)
  {
  }

  lemma RequestsAfterBranching(s: State, s': State, b: Block, record: Record)
    requires TreeInv(s) && RequestInv(s) && b.Child? && b.parent in s.stored && RecordMatches(b, record)
    requires record.controls == NO_CONTROLS
    requires s'.stored == s.stored + {b} && s'.head == s.head && s'.records == s.records[b := record]
    requires s'.issued == s.issued && s'.queue == s.queue
    ensures RequestInv(s')
  {
    hide RecordMatches, WellIssued, SlotsIncrease, FollowsLedger, QueueMatches, Consumed;
    if b in s.stored { EmptyRecordIsFixed(b, s.records[b], record); }
    ChainsKeepControls(s, b, record);
    ChainsKeepFollowing(s, b, record);
    BranchBlockFollows(s, b, s'.records);
    QueueStaysMatched(s, s'.records);
    assert s'.records.Keys == s'.stored - {Genesis};
  }

  lemma MineBranchKeepsRequests(cfg: Config, s: State, name: string, built: Built)
    requires ValidConfig(cfg) && TreeInv(s) && RequestInv(s) && MineBranch(cfg, s, name, built).Some?
    ensures RequestInv(MineBranch(cfg, s, name, built).value)
  {
    hide ValidRecord, Prepare, SafetyForChild, RequestInv, TreeInv;
    var p := Prepare(built.native, built.numbered, built.native, EMPTY_QUEUE).value;
    var parent := s.branches[name].head;
    var b := Child(parent, SlotOf(parent) + 1, Fork(name), built.body, built.native, p.requests);
    PreparedFacts(built, EMPTY_QUEUE);
    BranchRecordIsEmpty(built);
    RequestsAfterBranching(s, MineBranch(cfg, s, name, built).value, b, p.record);
  }

  lemma MineBranchKeepsRest(cfg: Config, s: State, name: string, built: Built)
    requires ValidConfig(cfg) && TreeInv(s) && IndexInv(s) && SafetyInv(s) && PointsInv(s) && EventInv(s)
    requires MineBranch(cfg, s, name, built).Some?
    ensures var s' := MineBranch(cfg, s, name, built).value;
            TreeInv(s') && IndexInv(s') && SafetyInv(s') && PointsInv(s') && EventInv(s')
  {
    hide ValidRecord, Prepare, SafetyForChild, Describes, Covers, Named, OwnReasons;
    var p := Prepare(built.native, built.numbered, built.native, EMPTY_QUEUE).value;
    var item := s.branches[name];
    var parent := item.head;
    var b := Child(parent, SlotOf(parent) + 1, Fork(name), built.body, built.native, p.requests);
    var s' := MineBranch(cfg, s, name, built).value;
    BranchRecordIsEmpty(built);
    PlainBlockIsSafe(b);
    SafetyAfterStoring(s, s', b, []);
    TaintFlag(s', b);
    assert Ancestor(item.base, b);
    assert GoodBranch(s', s'.branches[name]);
  }

  lemma PlainBlockIsSafe(b: Block)
    requires b.Child? && b.kind.Fork? && b.requests == b.native
    ensures OwnReasons(b) == {} && Named([]) == {}
  {
  }

  /** A stored taint flag says whether some block on the chain is unsafe. */
  lemma TaintFlag(s: State, b: Block)
    requires SafetyInv(s) && b in s.stored
    ensures SafetyOf(s, b).tainted <==> TaintedChain(b)
  {
  }

  lemma MineBranchKeepsInv(cfg: Config, s: State, name: string, built: Built)
    requires ValidConfig(cfg) && Inv(s) && MineBranch(cfg, s, name, built).Some?
    ensures Inv(MineBranch(cfg, s, name, built).value)
  {
    MineBranchKeepsRequests(cfg, s, name, built);
    MineBranchKeepsRest(cfg, s, name, built);
    hide *;
  }

  // ----- Switching ------------------------------------------------------------------------------------------

  /** The persisted index after a switch never contradicts the new in-memory one. */
  lemma DiskStaysWithin(oldHead: Block, target: Block, targetSlot: nat, disk: map<nat, Block>)
    requires SlotsIncrease(oldHead) && SlotsIncrease(target) && SlotOf(target) <= targetSlot
    requires forall at :: at in disk ==> at in SlotMap(oldHead) && disk[at] == SlotMap(oldHead)[at]
    ensures var c := Lca(oldHead, target);
            var disk' := Entered(disk, Above(target, c)) - Dropped(SlotMap(oldHead), Above(oldHead, c), targetSlot);
            forall at :: at in disk' ==> at in SlotMap(target) && disk'[at] == SlotMap(target)[at]
  {
    var c := Lca(oldHead, target);
    var oldPath, newPath := Above(oldHead, c), Above(target, c);
    AncestorSlot(c, target);
    KeptIsAncestorMap(oldHead, c, targetSlot);
    EnteredIsTipMap(target, c);
    var disk' := Entered(disk, newPath) - Dropped(SlotMap(oldHead), oldPath, targetSlot);
    forall at | at in disk' ensures at in SlotMap(target) && disk'[at] == SlotMap(target)[at] {
      EnteredAt(disk, newPath, at);
      EnteredAt(SlotMap(c), newPath, at);
      if at in disk && at !in SlotsOf(newPath) {
        assert at in Kept(SlotMap(oldHead), oldPath, targetSlot);
      }
    }
  }

  /** A path overrides the index exactly on its own slots, whatever the index was. */
  lemma {:induction false} EnteredAt(m: map<nat, Block>, path: seq<Block>, at: nat)
    ensures at in Entered(m, path) <==> at in m || at in SlotsOf(path)
    ensures at !in SlotsOf(path) && at in m ==> Entered(m, path)[at] == m[at]
    ensures at in SlotsOf(path) ==>
              forall n: map<nat, Block> ::
                at in Entered(n, path) && Entered(n, path)[at] == Entered(m, path)[at]
  {
    if path != [] {
      EnteredAt(m, path[1..], at);
      SlotsOfCons(path);
    }
  }

  lemma SlotsOfCons(path: seq<Block>)
    requires path != []
    ensures SlotsOf(path) == {SlotOf(path[0])} + SlotsOf(path[1..])
  {
  }

  /** Every stored block can be made canonical: reconciliation takes no error branch, and the queue it returns is valid
      and in issue order. */
  lemma SwitchNeverFails(s: State, target: Block, targetSlot: nat)
    requires RequestInv(s) && target in s.stored
    ensures SwitchCanonical(s, target, targetSlot).Some?
    ensures var s' := SwitchCanonical(s, target, targetSlot).value;
            QueueMatches(s'.issued, s'.records, target, s'.queue)
  {
    hide ValidRecord, ValidQueue, Entered, Kept, Dropped, SwitchEvents, FollowsLedger, WellIssued, QueueMatches,
         Reconciled, Above;
    RecordsAreValid(s);
    ReconcileIsExact(s.issued, s.records, s.queue, s.head, target);
  }

  lemma RecordsAreValid(s: State)
    requires RequestInv(s)
    ensures forall b :: b in s.records ==> ValidRecord(s.records[b])
  {
  }

  lemma SwitchKeepsIndex(s: State, s': State, target: Block, targetSlot: nat)
    requires TreeInv(s) && IndexInv(s) && target in s.stored && SlotOf(target) <= targetSlot && s'.head == target
    requires var c := Lca(s.head, target);
             var oldPath, newPath := Above(s.head, c), Above(target, c);
             s'.index == Entered(Kept(s.index, oldPath, targetSlot), newPath) &&
             s'.disk == Entered(s.disk, newPath) - Dropped(s.index, oldPath, targetSlot)
    ensures IndexInv(s')
  {
    hide Entered, Kept, Dropped, Above;
    EditedIndexIsExact(s.head, target, targetSlot);
    DiskStaysWithin(s.head, target, targetSlot, s.disk);
  }

  lemma SwitchKeepsInv(s: State, target: Block, targetSlot: nat)
    requires Inv(s) && target in s.stored && SlotOf(target) <= targetSlot
    ensures SwitchCanonical(s, target, targetSlot).Some?
    ensures Inv(SwitchCanonical(s, target, targetSlot).value)
  {
    hide Reconciled, ValidQueue, Entered, Kept, Dropped, SwitchEvents, IndexInv, SafetyInv, PointsInv, RequestInv,
         EventInv, QueueMatches, Above;
    SwitchNeverFails(s, target, targetSlot);
    SwitchFrame(s, target, targetSlot);
    var s' := SwitchCanonical(s, target, targetSlot).value;
    if s' != s {
      SwitchKeepsIndex(s, s', target, targetSlot);
      ReplaySwitch(s.head, target, targetSlot);
      EventsAppended(s, s', SwitchEvents(s.head, target, targetSlot));
      PointsFrame(s, s');
      SafetyFrame(s, s');
      RequestFrame(s, s');
      assert TreeInv(s') by { hide SlotsIncrease; }
    }
  }

  // ----- The other steps ------------------------------------------------------------------------------------

  lemma AddRequestKeepsInv(cfg: Config, s: State, t: nat, data: Bytes)
    requires ValidConfig(cfg) && Inv(s) && AddRequest(cfg, s, t, data).Some?
    ensures Inv(AddRequest(cfg, s, t, data).value)
  {
    hide CanBuildAt, ValidQueue, Enqueue, QueueMatches, FollowsLedger, WellIssued, RecordMatches, Describes, Covers;
    EnqueueKeepsQueue(s.issued, s.records, s.head, s.queue, t, data);
    forall b | b in s.stored ensures FollowsLedger(s.issued + [Issue(t, data)], s.records, b) {
      IssueKeepsChains(s.issued, s.records, b, Issue(t, data));
    }
  }

  lemma MissSlotsKeepsInv(cfg: Config, s: State, count: nat)
    requires ValidConfig(cfg) && Inv(s) && MissSlots(cfg, s, count).Some?
    ensures Inv(MissSlots(cfg, s, count).value)
  {
    hide CanBuildAt, IndexInv, SafetyInv, PointsInv, RequestInv, EventInv, Resolve;
    if count > 0 {
      var s' := MissSlots(cfg, s, count).value;
      var more := MissedEvents(s.slot, count) + FinalizedBetween(cfg, s, s.slot, s.slot + count);
      MissedHaveNoBlocks(s.slot, count);
      assert s'.published == s.published + more;
      PointsFrame(s, s');
      QuietStep(s, s', more);
    }
  }

  lemma FinalityControlsKeepInv(cfg: Config, s: State)
    requires ValidConfig(cfg) && Inv(s)
    ensures Inv(Pause(s)) && Inv(Resume(cfg, s))
  {
    hide IndexInv, SafetyInv, PointsInv, RequestInv, EventInv, ResolveAt;
    if s.paused {
      var more := TransitionEvents(cfg, ResolveAt(cfg, s, Min(s.slot, s.finalitySlot)), ResolveAt(cfg, s, s.slot));
      PointsFrame(s, Resume(cfg, s));
      QuietStep(s, Resume(cfg, s), more);
    } else {
      PointsFrame(s, Pause(s));
      assert Pause(s).published == s.published + [];
      QuietStep(s, Pause(s), []);
    }
  }

  lemma HeadPointIsGood(s: State)
    requires TreeInv(s) && SafetyInv(s)
    ensures GoodPoint(s, HeadPoint(s))
  {
  }

  lemma SnapshotKeepsInv(s: State)
    requires Inv(s) && Snapshot(s).Some?
    ensures Inv(Snapshot(s).value)
  {
    hide IndexInv, SafetyInv, RequestInv, EventInv, HeadPoint, TaintedChain, SlotsIncrease;
    HeadPointIsGood(s);
    var s' := Snapshot(s).value;
    assert s'.published == s.published + [];
    QuietStep(s, s', []);
  }

  lemma CheckpointKeepsInv(s: State, name: string)
    requires Inv(s) && Checkpoint(s, name).Some?
    ensures Inv(Checkpoint(s, name).value)
  {
    hide IndexInv, SafetyInv, RequestInv, EventInv, HeadPoint, TaintedChain, SlotsIncrease;
    HeadPointIsGood(s);
    var s' := Checkpoint(s, name).value;
    assert s'.published == s.published + [];
    QuietStep(s, s', []);
  }

  lemma BaseIsGood(s: State, number: nat)
    requires TreeInv(s) && SafetyInv(s) && number < |Chain(s.head)|
    ensures var base := Chain(s.head)[number]; GoodBranch(s, BranchItem(base, base, SafetyOf(s, base).tainted))
  {
    var base := Chain(s.head)[number];
    AncestorOnChain(base, s.head);
    AncestorsAreStored(s, s.head);
    TaintFlag(s, base);
  }

  lemma CreateBranchKeepsInv(cfg: Config, s: State, name: string, number: nat)
    requires Inv(s) && CreateBranch(cfg, s, name, number).Some?
    ensures Inv(CreateBranch(cfg, s, name, number).value)
  {
    hide IndexInv, SafetyInv, RequestInv, EventInv, TaintedChain, Finalized, SlotsIncrease, Chain, SafetyOf;
    BaseIsGood(s, number);
    assert s.published + [] == s.published;
    QuietStep(s, CreateBranch(cfg, s, name, number).value, []);
  }

  /** What a switch leaves alone, and where it goes. */
  predicate Elsewhere(s: State, s': State, target: Block, targetSlot: nat) {
    && s'.stored == s.stored && s'.safety == s.safety && s'.session == s.session && s'.records == s.records
    && s'.branches == s.branches && s'.snapshots == s.snapshots && s'.nextSnapshot == s.nextSnapshot
    && s'.checkpoints == s.checkpoints && s'.issued == s.issued && s'.paused == s.paused
    && s'.head == target && s'.slot == targetSlot
  }

  lemma SwitchedFrame(s: State, target: Block, targetSlot: nat, queue: Queue)
    ensures Elsewhere(s, Switched(s, target, targetSlot, queue), target, targetSlot)
  {
    hide Entered, Kept, Dropped, SwitchEvents, Above, Lca;
  }

  lemma SwitchFrame(s: State, target: Block, targetSlot: nat)
    requires SwitchCanonical(s, target, targetSlot).Some?
    ensures Elsewhere(s, SwitchCanonical(s, target, targetSlot).value, target, targetSlot)
  {
    hide Reconciled, ValidQueue, Switched, Above, Lca;
    if s.head != target || s.slot != targetSlot {
      var c := Lca(s.head, target);
      SwitchedFrame(s, target, targetSlot, Reconciled(s.records, s.queue, Above(s.head, c), Above(target, c)).value);
    }
  }

  lemma RevertKeepsInv(s: State, id: nat)
    requires Inv(s) && Revert(s, id).Some?
    ensures Inv(Revert(s, id).value)
  {
    hide SwitchCanonical, IndexInv, SafetyInv, RequestInv, EventInv, TreeInv, TaintedChain;
    if id in s.snapshots && !s.snapshots[id].used {
      var p := s.snapshots[id];
      assert GoodPoint(s, p);
      SwitchKeepsInv(s, p.block, p.slot);
      SwitchFrame(s, p.block, p.slot);
      MarkUsed(SwitchCanonical(s, p.block, p.slot).value, id);
    }
  }

  lemma MarkUsed(s: State, id: nat)
    requires Inv(s) && id in s.snapshots
    ensures Inv(s.(snapshots := s.snapshots[id := s.snapshots[id].(used := true)]))
  {
    hide IndexInv, SafetyInv, RequestInv, EventInv, TaintedChain, SlotsIncrease;
    var s' := s.(snapshots := s.snapshots[id := s.snapshots[id].(used := true)]);
    assert GoodPoint(s', s'.snapshots[id]) by { assert GoodPoint(s, s.snapshots[id]); }
    assert s'.published == s.published + [];
    QuietStep(s, s', []);
  }
}
