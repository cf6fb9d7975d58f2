/** What every write does, read off the states before and after it and in the source's own numbers. */
module NodeEffects {
  import opened Prelude
  import opened BlockTree
  import opened RequestCodec
  import opened RequestQueue
  import opened Reconcile
  import opened Ledger
  import opened Taint
  import opened NodeState
  import opened NodeInvariant
  import opened NodeSteps
  import opened NodeRestart
  import opened NodeRuns
  import opened NodeReturn
  import opened NodeFinality

  // ----- Blocks ---------------------------------------------------------------------------------------------

  /** `b` is the block that was built on `parent` for a slot: nothing of the build is lost or replaced. */
  predicate IsBuilt(b: Block, parent: Block, slot: nat, kind: Kind, built: Built) {
    && b.Child? && b.parent == parent && b.slot == slot && b.kind == kind
    && b.body.transactions == built.body.transactions && b.body.rest == built.body.rest && b.native == built.native
  }

  /** In every state a mining that succeeds makes the built block, on the old head and for the next slot, the new head;
      it is stored, entered in memory and on disk under its slot, and announced once. */
  lemma MinedBlockIsBuilt(cfg: Config, s: State, kind: Kind, built: Built)
    requires ValidConfig(cfg) && Try(cfg, s, DoMine(kind, built)).Some?
    ensures var s' := Try(cfg, s, DoMine(kind, built)).value;
            && IsBuilt(s'.head, s.head, s.slot + 1, kind, built) && s'.slot == s.slot + 1
            && s'.stored == s.stored + {s'.head}
            && s'.index == s.index[s.slot + 1 := s'.head] && s'.disk == s.disk[s.slot + 1 := s'.head]
            && |s'.published| > |s.published|
            && s'.published[|s.published|] == BlockEvent(s.slot + 1, s'.head, false, kind.Override?)
  {
    hide Prepare, CanBuildAt, ValidQueue, ValidRecord, SafetyForChild, TaintSession, FinalizedBetween, SafetyOf,
         UnsafeReasons, ValidConfig;
  }

  /** Two minings from one state give the same block exactly when kind, payload and native requests are the same. */
  lemma DifferentBuildsDiffer(cfg: Config, s: State, kind: Kind, built: Built, kind': Kind, built': Built)
    requires ValidConfig(cfg)
    requires Try(cfg, s, DoMine(kind, built)).Some? && Try(cfg, s, DoMine(kind', built')).Some?
    ensures Try(cfg, s, DoMine(kind, built)).value.head == Try(cfg, s, DoMine(kind', built')).value.head <==>
            kind == kind' && built.body == built'.body && built.native == built'.native
  {
    hide CanBuildAt, ValidQueue, ValidRecord, SafetyForChild, TaintSession, FinalizedBetween, SafetyOf, UnsafeReasons,
         ValidConfig, AcceptedList, Parsed, Marshal, Appended, Taken, Left, Decodable;
  }

  /** A branch block is the built one too, on the branch head and for the slot after that block's; the branch moves to
      it, and the canonical chain, its index and the clock stay. */
  lemma BranchBlockIsBuilt(cfg: Config, s: State, name: string, built: Built)
    requires ValidConfig(cfg) && Try(cfg, s, DoMineBranch(name, built)).Some?
    ensures var s' := Try(cfg, s, DoMineBranch(name, built)).value;
            && name in s.branches && name in s'.branches
            && var b, was := s'.branches[name].head, s.branches[name];
               && IsBuilt(b, was.head, SlotOf(was.head) + 1, Fork(name), built)
               && s'.stored == s.stored + {b} && s'.branches[name].base == was.base
               && s'.branches == s.branches[name := s'.branches[name]]
               && s'.head == s.head && s'.slot == s.slot && s'.index == s.index && s'.disk == s.disk
               && s'.queue == s.queue && s'.session == s.session && s'.published == s.published
  {
    hide Prepare, CanBuildAt, ValidRecord, SafetyForChild, SafetyOf, ValidConfig;
  }

  /** After every run a branch block is made exactly when a slot is left, there is such a branch, the timestamp of the
      slot after its head fits, and the native requests are well formed, with builder requests only under a numbered
      header; it commits to those requests and takes none from the queue. */
  lemma RunMineBranchSucceeds(cfg: Config, steps: seq<Step>, name: string, built: Built)
    requires ValidConfig(cfg)
    ensures var s := Run(cfg, INITIAL, steps);
            var r := Try(cfg, s, DoMineBranch(name, built));
            && (r.Some? <==>
                  && CanBuildAt(cfg, s.slot + 1) && name in s.branches
                  && cfg.genesisTime + (SlotOf(s.branches[name].head) + 1) * cfg.slotDuration <= 0xFFFF_FFFF_FFFF_FFFF
                  && AcceptedList(built.native) && (built.numbered || !CarriesBuilderRequests(built.native)))
            && (r.Some? ==> name in r.value.branches && r.value.branches[name].head.Child? &&
                            r.value.branches[name].head.requests == built.native)
  {
    hide Run, TreeInv, IndexInv, SafetyInv, RequestInv, EventInv, CanBuildAt, AcceptedList, VerifyRequestsHash,
         CarriesBuilderRequests, Prepare, ValidRecord, SafetyForChild, SafetyOf, ValidConfig;
    var s := Run(cfg, INITIAL, steps);
    ReachableInv(cfg, steps);
    HeaderCommits(built.native, built.numbered);
    EmptyQueueIsValid();
    PrepareSucceeds(built.native, built.numbered, built.native, EMPTY_QUEUE);
    if Prepare(built.native, built.numbered, built.native, EMPTY_QUEUE).Some? {
      PreparedIsValid(built.numbered, built.native, EMPTY_QUEUE);
      BranchRecordIsEmpty(built);
    }
    if name in s.branches { assert GoodBranch(s, s.branches[name]); }
    assert Try(cfg, s, DoMineBranch(name, built)).Some? ==>
             Try(cfg, s, DoMineBranch(name, built)) == MineBranch(cfg, s, name, built);
  }

  lemma EmptyQueueIsValid()
    ensures ValidQueue(EMPTY_QUEUE)
  {
  }

  // ----- Finality -------------------------------------------------------------------------------------------

  /** In every reachable state what is finalized lies two epochs behind the clock or, while finality is paused, behind
      the slot it was paused at: the latest block of the canonical chain at or before that slot. */
  lemma FinalizedIsTwoEpochsBehind(cfg: Config, steps: seq<Step>)
    requires ValidConfig(cfg)
    ensures var s := Run(cfg, INITIAL, steps);
            var r, f, lag := Finalized(cfg, s), if s.paused then s.finalitySlot else s.slot, 2 * cfg.slotsPerEpoch;
            && f <= s.slot && (if f > lag then r.slot + lag == f else r.slot == 0)
            && LatestBy(r.block, s.head, r.slot)
  {
    hide Run, IndexInv, SafetyInv, PointsInv, RequestInv, EventInv;
    var s := Run(cfg, INITIAL, steps);
    ReachableInv(cfg, steps);
    FinalizedIsWalk(cfg, s);
    var r := Finalized(cfg, s);
    hide ResolveAt, Resolve, Finalized;
    WalkIsLatest(s.head, r.slot);
  }

  /** The latest block of the chain of `tip` at or before a slot: every other one is an ancestor of it. */
  ghost predicate LatestBy(b: Block, tip: Block, slot: nat) {
    && Ancestor(b, tip) && SlotOf(b) <= slot
    && forall a :: Ancestor(a, tip) && SlotOf(a) <= slot ==> Ancestor(a, b)
  }

  lemma WalkIsLatest(tip: Block, slot: nat)
    requires SlotsIncrease(tip)
    ensures LatestBy(ParentWalk(tip, slot), tip, slot)
  {
    WalkIsAncestor(tip, slot);
    forall a | Ancestor(a, tip) && SlotOf(a) <= slot ensures Ancestor(a, ParentWalk(tip, slot)) {
      ParentWalkIsLatest(tip, slot, a);
    }
  }

  lemma {:induction false} WalkIsAncestor(tip: Block, slot: nat)
    ensures Ancestor(ParentWalk(tip, slot), tip) && SlotOf(ParentWalk(tip, slot)) <= slot
  {
    if SlotOf(tip) > slot { WalkIsAncestor(tip.parent, slot); }
  }

  /** The announcement a change of the finalized block or its epoch calls for. */
  function Announcement(cfg: Config, was: Resolution, now: Resolution): seq<Event>
    requires cfg.slotsPerEpoch > 0
  {
    if was.block != now.block || was.slot / cfg.slotsPerEpoch != now.slot / cfg.slotsPerEpoch
    then [FinalizedCheckpoint(now.slot, now.block)]
    else []
  }

  /** What a step says about blocks and slots. */
  function Plainly(s: State, step: Step, s': State): seq<Event> {
    match step
    case DoMine(kind, _) => [BlockEvent(s.slot + 1, s'.head, false, kind.Override?)]
    case DoMissSlots(count) => seq(count, i requires 0 <= i < count => MissedSlot(s.slot + 1 + i))
    case _ => []
  }

  /** In every reachable state a step that does not rewind publishes its own events and then one announcement, exactly
      when the finalized block or its epoch changed. */
  lemma StepAnnouncesExactly(cfg: Config, steps: seq<Step>, step: Step)
    requires ValidConfig(cfg) && !Rewinds(step)
    ensures var s := Run(cfg, INITIAL, steps);
            var r := Try(cfg, s, step);
            r.Some? ==> r.value.published == s.published + Plainly(s, step, r.value) +
                                             Announcement(cfg, Finalized(cfg, s), Finalized(cfg, r.value))
  {
    hide Run, Inv, ValidConfig, Mine, MineBranch, CreateBranch, SwitchBranch, MissSlots, Snapshot, Revert, Checkpoint,
         Restore, AddRequest, Restart, Pause, Resume, Finalized, Resolve;
    var s := Run(cfg, INITIAL, steps);
    ReachableInv(cfg, steps);
    assert s.published + [] == s.published;
    if Try(cfg, s, step).Some? {
      match step
      case DoMine(kind, built) => MineForward(cfg, s, kind, built);
      case DoMissSlots(count) =>
        MissNothing(cfg, s);
        MissedAreThese(s.slot, count);
        if count > 0 { MissForward(cfg, s, count); }
      case DoResume =>
        ResumeRunning(cfg, s);
        if s.paused { ResumeForward(cfg, s); }
      case _ => StillSteps(cfg, s, step);
    }
  }

  lemma MissedAreThese(start: nat, count: nat)
    ensures MissedEvents(start, count) == seq(count, i requires 0 <= i < count => MissedSlot(start + 1 + i))
  {
    MissedEventsAreEach(start, count);
  }

  /** Pausing freezes finality at the clock. From then on, whatever is mined, missed or branched, until a resume or a
      rewind, the node stays paused and what is finalized stays what it was. */
  lemma PauseHolds(cfg: Config, s: State, steps: seq<Step>)
    requires ValidConfig(cfg) && Inv(s) && CanBuildAt(cfg, s.slot + 1)
    requires forall i :: 0 <= i < |steps| ==> !Rewinds(steps[i]) && !steps[i].DoResume?
    ensures var p := After(cfg, s, DoPause);
            && p.paused && p.finalitySlot == (if s.paused then s.finalitySlot else s.slot) && p.slot == s.slot
            && Finalized(cfg, p) == Finalized(cfg, s)
            && var late := Run(cfg, p, steps);
               late.paused && late.finalitySlot == p.finalitySlot && Finalized(cfg, late) == Finalized(cfg, s)
  {
    hide Inv, Run, Finalized, CanBuildAt;
    var p := After(cfg, s, DoPause);
    assert Try(cfg, s, DoPause) == Some(Pause(s));
    StillSteps(cfg, s, DoPause);
    StepKeepsInv(cfg, s, DoPause);
    PausedRunHolds(cfg, p, steps);
  }

  lemma {:induction false} PausedRunHolds(cfg: Config, s: State, steps: seq<Step>)
    requires ValidConfig(cfg) && Inv(s) && s.paused
    requires forall i :: 0 <= i < |steps| ==> !Rewinds(steps[i]) && !steps[i].DoResume?
    ensures var late := Run(cfg, s, steps);
            late.paused && late.finalitySlot == s.finalitySlot && Finalized(cfg, late) == Finalized(cfg, s)
    decreases |steps|
  {
    hide Inv, Finalized, After, ValidConfig;
    if steps != [] {
      PauseFreezes(cfg, s, steps[0]);
      StepKeepsInv(cfg, s, steps[0]);
      StepKeepsPause(cfg, s, steps[0]);
      PausedRunHolds(cfg, After(cfg, s, steps[0]), steps[1..]);
    }
  }

  lemma StepKeepsPause(cfg: Config, s: State, step: Step)
    requires ValidConfig(cfg) && s.paused && !Rewinds(step) && !step.DoResume?
    ensures After(cfg, s, step).paused && After(cfg, s, step).finalitySlot == s.finalitySlot
  {
    hide CanBuildAt, Enqueue, ValidQueue, ValidRecord, Prepare, SafetyForChild, TaintSession, Chain, SafetyOf,
         FinalizedBetween, MissedEvents, SwitchBranch, Revert, Restore, Resume, ResolveAt,
         RuntimeMetadataValid, ControlMetadataValid, RequestMetadataValid, ValidConfig;
  }

  /** Resuming clears the pause and follows the clock again. */
  lemma ResumeReleases(cfg: Config, s: State)
    requires ValidConfig(cfg) && CanBuildAt(cfg, s.slot + 1) && TreeInv(s)
    ensures var s' := After(cfg, s, DoResume);
            !s'.paused && s'.finalitySlot == 0 && s'.slot == s.slot && s'.head == s.head
  {
    hide CanBuildAt, ResolveAt, TransitionEvents;
    assert Try(cfg, s, DoResume) == Some(Resume(cfg, s));
  }

  // ----- The clock ------------------------------------------------------------------------------------------

  /** Missing slots moves the clock by exactly their number and nothing else but the event log; it is refused exactly
      when no block could be built for the slot after them. */
  lemma MissMovesClock(cfg: Config, s: State, count: nat)
    requires ValidConfig(cfg) && CanBuildAt(cfg, s.slot + 1)
    ensures var r := Try(cfg, s, DoMissSlots(count));
            && (r.Some? <==>
                  || count == 0
                  || (s.slot + count + 1 <= 0xFFFF_FFFF_FFFF_FFFF &&
                      cfg.genesisTime + (s.slot + count + 1) * cfg.slotDuration <= 0xFFFF_FFFF_FFFF_FFFF))
            && (r.Some? ==> r.value == s.(slot := s.slot + count, published := r.value.published))
  {
    BuildGuardIsTimestampFits(cfg, s.slot + count + 1);
    hide CanBuildAt, FinalizedBetween, MissedEvents;
    assert Try(cfg, s, DoMissSlots(count)) == MissSlots(cfg, s, count);
  }

  // ----- Taint ----------------------------------------------------------------------------------------------

  predicate Overridden(b: Block) {
    b.Child? && b.kind.Override?
  }

  predicate Controlled(b: Block) {
    b.Child? && b.requests != b.native
  }

  /** After every run the flags of a stored block name the two causes there are: a state override, or control requests
      added to the native ones, each exactly when the block or an ancestor has that cause. */
  lemma TaintNamesCauses(cfg: Config, steps: seq<Step>, b: Block)
    requires ValidConfig(cfg) && b in Run(cfg, INITIAL, steps).stored
    ensures var s := Run(cfg, INITIAL, steps);
            && b in s.safety
            && ("control-state-override" in s.safety[b].reasons <==> exists a :: Ancestor(a, b) && Overridden(a))
            && ("execution-request-control" in s.safety[b].reasons <==> exists a :: Ancestor(a, b) && Controlled(a))
            && s.safety[b].reasons <= {"control-state-override", "execution-request-control"}
            && (s.safety[b].tainted <==> s.safety[b].reasons != {})
  {
    hide Run, Ancestor, Covers;
    RunTaintIsInherited(cfg, steps, b);
    var s := Run(cfg, INITIAL, steps);
    NamesDiffer();
    forall a ensures STATE_OVERRIDE in OwnReasons(a) <==> Overridden(a) {}
    forall a ensures REQUEST_CONTROL in OwnReasons(a) <==> Controlled(a) {}
    hide OwnReasons;
    forall r | r in s.safety[b].reasons ensures r in {STATE_OVERRIDE, REQUEST_CONTROL} {
      var a :| Ancestor(a, b) && r in OwnReasons(a);
      TwoReasons(a);
    }
    if s.safety[b].tainted {
      var a :| Ancestor(a, b) && Unsafe(a);
      var r :| r in OwnReasons(a);
      assert r in s.safety[b].reasons;
    }
  }

  lemma NamesDiffer()
    ensures STATE_OVERRIDE != REQUEST_CONTROL
  {
    assert STATE_OVERRIDE[0] != REQUEST_CONTROL[0];
  }

  lemma TwoReasons(b: Block)
    ensures OwnReasons(b) <= {STATE_OVERRIDE, REQUEST_CONTROL}
  {
  }

  // ----- Requests -------------------------------------------------------------------------------------------

  /** A deposit of 192, a withdrawal of 76 or a consolidation of 116 bytes, with fewer than 8192, 16 or 2 of its kind
      pending, and an ID left. */
  predicate Queueable(s: State, t: nat, data: Bytes) {
    && |s.issued| + 1 < 0xFFFF_FFFF_FFFF_FFFF
    && (|| (t == 0 && |data| == 192 && |s.queue.pending.deposits| < 8192)
        || (t == 1 && |data| == 76 && |s.queue.pending.withdrawals| < 16)
        || (t == 2 && |data| == 116 && |s.queue.pending.consolidations| < 2))
  }

  /** A request is queued exactly when a slot is left and it is queueable; it then takes the next ID at the end of its
      list, and nothing else changes. */
  lemma RequestQueuesIff(cfg: Config, s: State, t: nat, data: Bytes)
    requires ValidConfig(cfg) && Inv(s)
    ensures var r := Try(cfg, s, DoAddRequest(t, data));
            && (r.Some? <==> CanBuildAt(cfg, s.slot + 1) && Queueable(s, t, data))
            && s.queue.nextID == |s.issued| + 1
            && (r.Some? ==> r.value == s.(queue := r.value.queue, issued := s.issued + [Issue(t, data)]) &&
                            Queues(s.queue, r.value.queue, t, data))
  {
    hide TreeInv, IndexInv, SafetyInv, PointsInv, RequestInv, EventInv, CanBuildAt, ValidConfig, ValidQueue;
    QueueIsValid(s);
    if Enqueue(s.queue, t, data).Some? { EnqueuedIsValid(s.queue, t, data); }
  }

  /** So it is after every run. */
  lemma RunQueuesIff(cfg: Config, steps: seq<Step>, t: nat, data: Bytes)
    requires ValidConfig(cfg)
    ensures var s := Run(cfg, INITIAL, steps);
            var r := Try(cfg, s, DoAddRequest(t, data));
            && (r.Some? <==> CanBuildAt(cfg, s.slot + 1) && Queueable(s, t, data))
            && s.queue.nextID == |s.issued| + 1
            && (r.Some? ==> r.value == s.(queue := r.value.queue, issued := s.issued + [Issue(t, data)]) &&
                            Queues(s.queue, r.value.queue, t, data))
  {
    hide Run, Inv, CanBuildAt, ValidConfig, Try, Queueable, Queues;
    ReachableInv(cfg, steps);
    RequestQueuesIff(cfg, Run(cfg, INITIAL, steps), t, data);
  }

  /** One more request of its kind, under the next ID, at the end. */
  predicate Queues(q: Queue, q': Queue, t: nat, data: Bytes) {
    var item := Queued(q.nextID, data);
    && q'.nextID == q.nextID + 1
    && q'.pending.deposits == q.pending.deposits + (if t == 0 then [item] else [])
    && q'.pending.withdrawals == q.pending.withdrawals + (if t == 1 then [item] else [])
    && q'.pending.consolidations == q.pending.consolidations + (if t == 2 then [item] else [])
  }

  lemma EnqueuedIsValid(q: Queue, t: nat, data: Bytes)
    requires ValidQueue(q) && Enqueue(q, t, data).Some?
    ensures ValidQueue(Enqueue(q, t, data).value)
  {
    var item := Queued(q.nextID, data);
    hide ValidControls, Add;
    EnqueueAdds(q, t, data);
    EnqueueFits(q, t, data);
    hide Enqueue;
    forall u, i | 0 <= u < CONTROL_TYPES && 0 <= i < |q.pending.Of(u)| ensures q.pending.Of(u)[i].id < item.id {
      assert q.Of(u)[i].id < q.nextID;
    }
    AddedIsValid(q.pending, t, item);
    var q' := Enqueue(q, t, data).value;
    forall u, i | 0 <= u < CONTROL_TYPES && 0 <= i < |q'.Of(u)| ensures q'.Of(u)[i].id < q'.nextID {
      AddedAt(q.pending, t, item, u, i);
    }
  }

  lemma AddedAt(c: ControlSet, t: nat, item: Queued, u: nat, i: nat)
    requires t < CONTROL_TYPES && i < |Add(c, t, item).Of(u)|
    ensures Add(c, t, item).Of(u)[i] == if i < |c.Of(u)| then c.Of(u)[i] else item
    ensures i < |c.Of(u)| || u == t
  {
  }

  lemma AddedIsValid(c: ControlSet, t: nat, item: Queued)
    requires ValidControls(c) && t < CONTROL_TYPES && |item.data| == Size(t) && item.id > 0
    requires forall u, i :: 0 <= u < CONTROL_TYPES && 0 <= i < |c.Of(u)| ==> c.Of(u)[i].id < item.id
    ensures ValidControls(Add(c, t, item))
  {
    var c' := Add(c, t, item);
    hide WellSized, Increasing, Disjoint, Add, Size;
    forall u | 0 <= u < CONTROL_TYPES ensures WellSized(u, c'.Of(u)) && Increasing(c'.Of(u)) {
      if u == t { ItemAtEnd(t, c.Of(t), item); }
    }
    forall u, v | 0 <= u < v < CONTROL_TYPES ensures Disjoint(c'.Of(u), c'.Of(v)) {
      NewIdIsFresh(c.Of(u), c.Of(v), item);
    }
  }

  lemma EnqueueAdds(q: Queue, t: nat, data: Bytes)
    requires Enqueue(q, t, data).Some?
    ensures t < CONTROL_TYPES
    ensures Enqueue(q, t, data).value == Queue(q.nextID + 1, Add(q.pending, t, Queued(q.nextID, data)))
  {
  }

  lemma EnqueueFits(q: Queue, t: nat, data: Bytes)
    requires Enqueue(q, t, data).Some?
    ensures |data| == Size(t) && q.nextID > 0
  {
  }

  lemma ItemAtEnd(t: nat, items: seq<Queued>, item: Queued)
    requires WellSized(t, items) && Increasing(items) && |item.data| == Size(t) && item.id > 0
    requires forall i :: 0 <= i < |items| ==> items[i].id < item.id
    ensures WellSized(t, items + [item]) && Increasing(items + [item])
  {
  }

  lemma NewIdIsFresh(a: seq<Queued>, b: seq<Queued>, item: Queued)
    requires Disjoint(a, b)
    requires forall i :: 0 <= i < |a| ==> a[i].id < item.id
    requires forall i :: 0 <= i < |b| ==> b[i].id < item.id
    ensures Disjoint(a + [item], b) && Disjoint(a, b + [item])
  {
  }

  // ----- Snapshots ------------------------------------------------------------------------------------------

  /** A snapshot is taken exactly while a slot and an ID are left; its ID is the next number, never one in use. */
  lemma SnapshotTakesNextId(cfg: Config, s: State)
    requires ValidConfig(cfg) && Inv(s)
    ensures var r := Try(cfg, s, DoSnapshot);
            && (r.Some? <==> CanBuildAt(cfg, s.slot + 1) && s.nextSnapshot < 0xFFFF_FFFF_FFFF_FFFF)
            && (r.Some? ==>
                  var id := s.nextSnapshot + 1;
                  && id !in s.snapshots && r.value.nextSnapshot == id && id in r.value.snapshots
                  && r.value.snapshots[id].block == s.head && r.value.snapshots[id].slot == s.slot
                  && !r.value.snapshots[id].used
                  && r.value == s.(nextSnapshot := id, snapshots := s.snapshots[id := r.value.snapshots[id]]))
  {
    hide TreeInv, IndexInv, SafetyInv, RequestInv, EventInv, CanBuildAt, GoodPoint, GoodBranch, SafetyOf, ValidConfig;
  }

  /** Once reverted to, a snapshot stays used until a restart. */
  predicate Spent(s: State, id: nat) {
    id in s.snapshots && s.snapshots[id].used && id <= s.nextSnapshot
  }

  lemma SpentIsIgnored(cfg: Config, s: State, id: nat)
    requires ValidConfig(cfg) && Spent(s, id)
    ensures After(cfg, s, DoRevert(id)) == s
  {
    hide SwitchCanonical, CanBuildAt, ValidConfig;
  }

  lemma StepKeepsSpent(cfg: Config, s: State, step: Step, id: nat)
    requires ValidConfig(cfg) && Spent(s, id) && !step.DoRestart?
    ensures Spent(After(cfg, s, step), id)
  {
    hide ValidConfig, Try, Spent;
    if step == DoRevert(id) {
      SpentIsIgnored(cfg, s, id);
    } else if step.DoSnapshot? || step.DoRevert? || step.DoRestore? || step.DoSwitchBranch? {
      SpentIsKept(s, After(cfg, s, step), id);
      PointStepsKeepSnapshot(cfg, s, step, id, s.snapshots[id]);
    } else if Try(cfg, s, step).Some? {
      OthersKeepSnapshot(cfg, s, step);
      SpentIsKept(s, After(cfg, s, step), id);
    }
  }

  lemma SpentIsKept(s: State, s': State, id: nat)
    requires Spent(s, id)
    ensures Keeps(s, id, s.snapshots[id])
    ensures Keeps(s', id, s.snapshots[id]) ==> Spent(s', id)
  {
  }

  lemma {:induction false} RunKeepsSpent(cfg: Config, s: State, steps: seq<Step>, id: nat)
    requires ValidConfig(cfg) && Spent(s, id) && forall i :: 0 <= i < |steps| ==> !steps[i].DoRestart?
    ensures Spent(Run(cfg, s, steps), id)
    decreases |steps|
  {
    hide ValidConfig, After, Spent;
    if steps != [] {
      StepKeepsSpent(cfg, s, steps[0], id);
      RunKeepsSpent(cfg, After(cfg, s, steps[0]), steps[1..], id);
    }
  }

  /** A snapshot can be used once: after a revert to it, and whatever follows short of a restart, reverting to it again
      changes nothing. */
  lemma SnapshotIsUsedOnce(cfg: Config, s: State, id: nat, steps: seq<Step>)
    requires ValidConfig(cfg) && Inv(s) && CanBuildAt(cfg, s.slot + 1)
    requires id in s.snapshots && !s.snapshots[id].used
    requires forall i :: 0 <= i < |steps| ==> !steps[i].DoRestart?
    ensures var late := Run(cfg, After(cfg, s, DoRevert(id)), steps); After(cfg, late, DoRevert(id)) == late
  {
    hide Run, CanBuildAt, ValidConfig, After, Spent;
    RevertSpends(cfg, s, id);
    RunKeepsSpent(cfg, After(cfg, s, DoRevert(id)), steps, id);
    SpentIsIgnored(cfg, Run(cfg, After(cfg, s, DoRevert(id)), steps), id);
  }

  lemma RevertSpends(cfg: Config, s: State, id: nat)
    requires ValidConfig(cfg) && Inv(s) && CanBuildAt(cfg, s.slot + 1) && id in s.snapshots && !s.snapshots[id].used
    ensures Spent(After(cfg, s, DoRevert(id)), id)
  {
    hide SwitchCanonical, CanBuildAt, TreeInv, IndexInv, SafetyInv, RequestInv, EventInv, TaintedChain;
    var p := s.snapshots[id];
    assert GoodPoint(s, p) && id <= s.nextSnapshot;
    SwitchKeepsInv(s, p.block, p.slot);
    SwitchFrame(s, p.block, p.slot);
    assert Try(cfg, s, DoRevert(id)) == Revert(s, id);
  }

  /** A checkpoint is taken exactly while a slot is left and its name is not empty, of the head at the clock's slot. */
  lemma CheckpointTakesHead(cfg: Config, s: State, name: string)
    requires ValidConfig(cfg)
    ensures var r := Try(cfg, s, DoCheckpoint(name));
            && (r.Some? <==> CanBuildAt(cfg, s.slot + 1) && |name| > 0)
            && (r.Some? ==>
                  && name in r.value.checkpoints
                  && r.value.checkpoints[name].block == s.head && r.value.checkpoints[name].slot == s.slot
                  && r.value == s.(checkpoints := s.checkpoints[name := r.value.checkpoints[name]]))
  {
    hide CanBuildAt, SafetyOf, ValidConfig;
  }

  // ----- Switches -------------------------------------------------------------------------------------------

  /** The events of a switch one by one: the removed blocks from the old tip down, the added blocks upwards, each under
      its own slot, and one reorganisation if the head changed. */
  lemma SwitchEventIs(oldHead: Block, target: Block, targetSlot: nat, i: nat)
    ensures var c := Lca(oldHead, target);
            var gone, come, events := Above(oldHead, c), Above(target, c), SwitchEvents(oldHead, target, targetSlot);
            && |events| == |gone| + |come| + (if oldHead == target then 0 else 1)
            && (i < |events| ==>
                  events[i] ==
                  if i < |gone| then BlockEvent(SlotOf(gone[i]), gone[i], true, false)
                  else if i < |gone| + |come| then
                    var b := come[|gone| + |come| - 1 - i]; BlockEvent(SlotOf(b), b, false, false)
                  else Reorg(targetSlot, oldHead, target, |gone|))
  {
    var c := Lca(oldHead, target);
    var gone, come := Above(oldHead, c), Above(target, c);
    RemovedAre(gone);
    AddedAre(come);
    hide RemovedEvents, AddedEvents, Above, Lca;
    if |gone| <= i < |gone| + |come| {
      var k := |gone| + |come| - 1 - i;
      assert AddedEvents(come)[|come| - 1 - k] == BlockEvent(SlotOf(come[k]), come[k], false, false);
    }
  }

  lemma {:induction false} RemovedAre(path: seq<Block>)
    ensures |RemovedEvents(path)| == |path|
    ensures forall i :: 0 <= i < |path| ==> RemovedEvents(path)[i] == BlockEvent(SlotOf(path[i]), path[i], true, false)
  {
    if path != [] { RemovedAre(path[1..]); }
  }

  lemma {:induction false} AddedAre(path: seq<Block>)
    ensures |AddedEvents(path)| == |path|
    ensures forall i :: 0 <= i < |path| ==>
              AddedEvents(path)[|path| - 1 - i] == BlockEvent(SlotOf(path[i]), path[i], false, false)
  {
    if path != [] {
      var rest := path[1..];
      AddedAre(rest);
      forall i | 0 < i < |path|
        ensures AddedEvents(path)[|path| - 1 - i] == BlockEvent(SlotOf(path[i]), path[i], false, false)
      {
        assert AddedEvents(path)[|path| - 1 - i] == AddedEvents(rest)[|rest| - 1 - (i - 1)];
      }
    }
  }

  /** Any switch to a stored block, from every state with the invariant: where it ends, that a frozen finality slot is
      pulled back to the new clock and otherwise kept, what it publishes, and what it leaves alone. */
  lemma SwitchGoesThere(s: State, target: Block, targetSlot: nat)
    requires Inv(s) && target in s.stored && SlotOf(target) <= targetSlot
    ensures var r := SwitchCanonical(s, target, targetSlot);
            && r.Some? && r.value.head == target && r.value.slot == targetSlot && r.value.paused == s.paused
            && r.value.finalitySlot == (if s.paused && s.finalitySlot > targetSlot then targetSlot else s.finalitySlot)
            && r.value.published == s.published + (if s.head == target && s.slot == targetSlot then []
                                                   else SwitchEvents(s.head, target, targetSlot))
            && Elsewhere(s, r.value, target, targetSlot)
  {
    hide Reconciled, ValidQueue, Entered, Kept, Dropped, SwitchEvents, Above, Lca, IndexInv, SafetyInv, PointsInv,
         RequestInv, EventInv;
    SwitchKeepsInv(s, target, targetSlot);
    SwitchFrame(s, target, targetSlot);
    assert s.published + [] == s.published;
  }

  /** After every run a branch switch that succeeds ends at the branch head and that block's own slot. */
  lemma SwitchBranchGoesThere(cfg: Config, steps: seq<Step>, name: string)
    requires ValidConfig(cfg)
    ensures var s := Run(cfg, INITIAL, steps);
            var r := Try(cfg, s, DoSwitchBranch(name));
            && (r.Some? <==>
                  && CanBuildAt(cfg, s.slot + 1) && name in s.branches
                  && Ancestor(Finalized(cfg, s).block, s.branches[name].head))
            && (r.Some? ==> r.value.head == s.branches[name].head && r.value.slot == SlotOf(r.value.head))
  {
    hide Run, SwitchCanonical, Finalized, TreeInv, IndexInv, SafetyInv, RequestInv, EventInv, TaintedChain, CanBuildAt,
         ValidConfig;
    var s := Run(cfg, INITIAL, steps);
    ReachableInv(cfg, steps);
    if name in s.branches {
      SwitchBranchKeepsFinalized(cfg, steps, name);
      assert GoodBranch(s, s.branches[name]);
      SwitchFrameOfBranch(s, s.branches[name].head);
    }
  }

  lemma SwitchFrameOfBranch(s: State, target: Block)
    requires Inv(s) && target in s.stored
    ensures var r := SwitchCanonical(s, target, SlotOf(target)); r.Some? && r.value.slot == SlotOf(target)
  {
    hide Inv, SwitchCanonical, SwitchEvents;
    SwitchGoesThere(s, target, SlotOf(target));
  }

  // ----- Startup --------------------------------------------------------------------------------------------

  /** What an accepted restart guarantees of whatever was on disk, invariant or not: the slot index is exactly the slots
      of the canonical chain, every stored block has flags, taint is explained, the points and branches are known blocks
      with matching flags, and the request IDs are consistent. */
  ghost predicate Coherent(s: State) {
    && (forall at :: at in s.index <==> exists b :: Ancestor(b, s.head) && SlotOf(b) == at)
    && (forall b :: Ancestor(b, s.head) ==> b in s.stored && s.index[SlotOf(b)] == b)
    && SlotOf(s.head) <= s.slot && (s.paused ==> s.finalitySlot <= s.slot) && (!s.paused ==> s.finalitySlot == 0)
    && (forall b :: b in s.stored ==> b in s.safety)
    && (forall b :: b in s.stored && s.safety[b].tainted ==>
          s.session.tainted && s.safety[b].firstUnsafe.Some? && s.safety[b].reasons <= s.session.reasons)
    && (s.session.tainted ==>
          s.session.firstUnsafe.Some? && s.session.firstUnsafe.value in s.safety &&
          s.safety[s.session.firstUnsafe.value].tainted)
    && (forall n :: n in s.checkpoints ==>
          s.checkpoints[n].block in s.stored && SlotOf(s.checkpoints[n].block) <= s.checkpoints[n].slot &&
          s.checkpoints[n].tainted == s.safety[s.checkpoints[n].block].tainted)
    && (forall n :: n in s.branches ==>
          s.branches[n].head in s.stored && Ancestor(s.branches[n].base, s.branches[n].head) &&
          s.branches[n].tainted == s.safety[s.branches[n].head].tainted)
  }

  /** For every state whatsoever: a restart that is accepted is coherent. */
  lemma RestartIsCoherent(cfg: Config, s: State)
    requires ValidConfig(cfg) && Restart(cfg, s).Some?
    ensures Coherent(Restart(cfg, s).value)
    ensures var r := Restart(cfg, s).value;
            r == s.(index := s.disk, snapshots := map[], nextSnapshot := 0) && CanBuildAt(cfg, r.slot + 1)
  {
    hide CanBuildAt, RequestMetadataValid, Above;
    var r := Restart(cfg, s).value;
    forall b | Ancestor(b, r.head)
      ensures b in r.stored && SlotOf(b) in r.index && r.index[SlotOf(b)] == b
    {
      AncestorOnChain(b, r.head);
    }
    forall at ensures at in r.index <==> exists b :: Ancestor(b, r.head) && SlotOf(b) == at {
      if at in r.index { assert Ancestor(r.index[at], r.head) && SlotOf(r.index[at]) == at; }
    }
  }

  /** And its requests are too: the records say what the blocks say, and an ID has one kind and one content, below the
      next ID, in at most one place of the queue and the canonical chain. */
  lemma RestartHasSoundRequests(cfg: Config, s: State)
    requires ValidConfig(cfg) && Restart(cfg, s).Some?
    ensures forall b :: b in s.stored && b.Child? ==>
              b in s.records && s.records[b].native == b.native && s.records[b].requests == b.requests
    ensures forall t: nat, x :: t < CONTROL_TYPES && x in s.queue.Of(t) ==> 1 <= x.id < s.queue.nextID
    ensures forall b, t, x, u, y ::
              Holds(s, Some(b), t, x) && Holds(s, None, u, y) && x.id == y.id ==>
              t == u && x.data == y.data && !Ancestor(b, s.head)
    ensures forall b, t, x, c, u, y ::
              Holds(s, Some(b), t, x) && Holds(s, Some(c), u, y) && x.id == y.id ==>
              t == u && x.data == y.data && (Ancestor(b, s.head) && Ancestor(c, s.head) ==> b == c)
  {
    hide CanBuildAt, RuntimeMetadataValid, ControlMetadataValid, ValidQueue, ValidRecord, Ancestor;
    var r := Restart(cfg, s).value;
    assert forall p, t, x :: Holds(s, p, t, x) <==> Holds(r, p, t, x);
    forall t: nat, x | t < CONTROL_TYPES && x in s.queue.Of(t) ensures 1 <= x.id < s.queue.nextID {
      assert Holds(r, None, t, x);
    }
    hide Holds;
    assert forall b :: Live(r, Some(b)) <==> Ancestor(b, s.head);
    assert Live(r, None);
  }
}
