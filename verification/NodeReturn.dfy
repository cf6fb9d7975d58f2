/** Going back: what a revert or a restore undoes, and what it keeps. */
module NodeReturn {
  import opened Prelude
  import opened BlockTree
  import opened RequestQueue
  import opened Reconcile
  import opened Ledger
  import opened Taint
  import opened NodeState
  import opened NodeInvariant
  import opened NodeSteps
  import opened NodeRuns

  /** The records of stored blocks are still what they were. */
  predicate KeepsRecords(s: State, s': State) {
    forall b :: b in s.records ==> b in s'.records && s'.records[b] == s.records[b]
  }

  lemma MineKeepsRecords(cfg: Config, s: State, kind: Kind, built: Built)
    requires ValidConfig(cfg) && Inv(s) && Mine(cfg, s, kind, built).Some?
    ensures KeepsRecords(s, Mine(cfg, s, kind, built).value)
  {
    hide ValidRecord, Prepare, CanBuildAt, FinalizedBetween, SafetyForChild, TaintSession, TreeInv, IndexInv, SafetyInv,
         PointsInv, EventInv, QueueMatches, FollowsLedger, WellIssued, RecordMatches;
    MinedRecordIsFixed(cfg, s, kind, built);
  }

  lemma MineBranchKeepsRecords(cfg: Config, s: State, name: string, built: Built)
    requires ValidConfig(cfg) && Inv(s) && MineBranch(cfg, s, name, built).Some?
    ensures KeepsRecords(s, MineBranch(cfg, s, name, built).value)
  {
    hide ValidRecord, Prepare, SafetyForChild, TreeInv, IndexInv, SafetyInv, PointsInv, EventInv, QueueMatches,
         FollowsLedger, WellIssued;
    var p := Prepare(built.native, built.numbered, built.native, EMPTY_QUEUE).value;
    var parent := s.branches[name].head;
    var b := Child(parent, SlotOf(parent) + 1, Fork(name), built.body, built.native, p.requests);
    PreparedFacts(built, EMPTY_QUEUE);
    BranchRecordIsEmpty(built);
    if b in s.records { EmptyRecordIsFixed(b, s.records[b], p.record); }
  }

  lemma QuietKeepsRecords(cfg: Config, s: State, step: Step)
    requires ValidConfig(cfg) && Try(cfg, s, step).Some? && !step.DoMine? && !step.DoMineBranch?
    requires !step.DoSwitchBranch? && !step.DoRevert? && !step.DoRestore?
    ensures After(cfg, s, step).records == s.records
  {
    hide CanBuildAt, Enqueue, ValidQueue, Chain, SafetyOf, Finalized, FinalizedBetween, MissedEvents, TransitionEvents,
         Mine, MineBranch, SwitchBranch, Revert, Restore, RuntimeMetadataValid, ControlMetadataValid,
         RequestMetadataValid;
  }

  lemma SwitchKeepsRecords(cfg: Config, s: State, step: Step)
    requires ValidConfig(cfg) && (step.DoSwitchBranch? || step.DoRevert? || step.DoRestore?)
    ensures After(cfg, s, step).records == s.records
  {
    hide Finalized, SwitchCanonical, ValidConfig, CanBuildAt;
    match step
    case DoRevert(id) =>
      if id in s.snapshots { SwitchKeepsPoints(s, s.snapshots[id].block, s.snapshots[id].slot); }
    case DoRestore(name) =>
      if name in s.checkpoints { SwitchKeepsPoints(s, s.checkpoints[name].block, s.checkpoints[name].slot); }
    case DoSwitchBranch(name) =>
      if name in s.branches { SwitchKeepsPoints(s, s.branches[name].head, SlotOf(s.branches[name].head)); }
  }

  /** Once stored, a block's record never changes. */
  lemma StepKeepsRecords(cfg: Config, s: State, step: Step)
    requires ValidConfig(cfg) && Inv(s)
    ensures KeepsRecords(s, After(cfg, s, step))
  {
    hide Inv, ValidConfig, Mine, MineBranch, CreateBranch, SwitchBranch, MissSlots, Snapshot, Revert, Checkpoint,
         Restore, AddRequest, Restart, Pause, Resume;
    if Try(cfg, s, step).Some? {
      match step
      case DoMine(kind, built) => MineKeepsRecords(cfg, s, kind, built);
      case DoMineBranch(name, built) => MineBranchKeepsRecords(cfg, s, name, built);
      case DoSwitchBranch(_) => SwitchKeepsRecords(cfg, s, step);
      case DoRevert(_) => SwitchKeepsRecords(cfg, s, step);
      case DoRestore(_) => SwitchKeepsRecords(cfg, s, step);
      case _ => QuietKeepsRecords(cfg, s, step);
    }
  }

  lemma {:induction false} RunKeepsHistory(cfg: Config, s: State, steps: seq<Step>)
    requires ValidConfig(cfg) && Inv(s)
    ensures var s' := Run(cfg, s, steps);
            Inv(s') && KeepsRecords(s, s') && s.stored <= s'.stored && s.issued <= s'.issued
    decreases |steps|
  {
    hide Inv, After, ValidConfig;
    if steps != [] {
      var next := After(cfg, s, steps[0]);
      StepKeepsInv(cfg, s, steps[0]);
      StepKeepsRecords(cfg, s, steps[0]);
      HistoryGrows(cfg, s, steps[0]);
      RunKeepsHistory(cfg, next, steps[1..]);
    }
  }

  // ----- Returning ------------------------------------------------------------------------------------------

  /** The requests of a type issued between two ledgers. */
  function IssuedSince(before: seq<Issue>, after: seq<Issue>, t: nat): seq<Queued>
    requires before <= after
  {
    ItemsGrow(before, after, t);
    ItemsOf(after, t)[|ItemsOf(before, t)|..]
  }

  lemma {:induction false} ItemsGrow(before: seq<Issue>, after: seq<Issue>, t: nat)
    requires before <= after
    ensures ItemsOf(before, t) <= ItemsOf(after, t)
    decreases |after|
  {
    if before != after {
      ItemsGrow(before, after[..|after| - 1], t);
    }
  }

  lemma SameConsumed(s: State, s': State, t: nat)
    requires Inv(s) && Inv(s') && KeepsRecords(s, s')
    ensures Consumed(s'.records, s.head, t) == Consumed(s.records, s.head, t)
  {
    hide IndexInv, SafetyInv, PointsInv, EventInv, QueueMatches, FollowsLedger, WellIssued, RecordMatches, Consumed;
    AncestorsAreStored(s, s.head);
    forall a | Ancestor(a, s.head) ensures ControlsOf(s.records, a) == ControlsOf(s'.records, a) {
      if a.Genesis? { assert a !in s.records && a !in s'.records; } else { assert a in s.records; }
    }
    ConsumedFrame(s.records, s'.records, s.head, t);
  }

  lemma QueueSplitsLedger(s: State, t: nat)
    requires RequestInv(s) && t < CONTROL_TYPES
    ensures Consumed(s.records, s.head, t) + s.queue.Of(t) == ItemsOf(s.issued, t)
  {
  }

  /** Whatever has happened since, switching back to where the node stood gives back the head, the clock and the slot
      index, and the queue as it was with the requests issued since at its end. */
  lemma ReturnRestores(cfg: Config, s: State, steps: seq<Step>, t: nat)
    requires ValidConfig(cfg) && Inv(s) && t < CONTROL_TYPES
    ensures var late := Run(cfg, s, steps);
            && s.head in late.stored && s.issued <= late.issued
            && SwitchCanonical(late, s.head, s.slot).Some?
            && var back := SwitchCanonical(late, s.head, s.slot).value;
               && Inv(back) && back.head == s.head && back.slot == s.slot && back.index == s.index
               && back.queue.Of(t) == s.queue.Of(t) + IssuedSince(s.issued, late.issued, t)
  {
    hide Run, SwitchCanonical, SafetyInv, PointsInv, EventInv, RequestInv, Consumed, ItemsOf;
    RunKeepsHistory(cfg, s, steps);
    var late := Run(cfg, s, steps);
    SwitchKeepsInv(late, s.head, s.slot);
    SwitchFrame(late, s.head, s.slot);
    var back := SwitchCanonical(late, s.head, s.slot).value;
    SameConsumed(s, late, t);
    QueueSplitsLedger(s, t);
    QueueSplitsLedger(back, t);
    ItemsGrow(s.issued, late.issued, t);
    SuffixAfter(Consumed(s.records, s.head, t), s.queue.Of(t), back.queue.Of(t),
                ItemsOf(s.issued, t), ItemsOf(late.issued, t));
  }

  lemma SuffixAfter<T>(before: seq<T>, was: seq<T>, now: seq<T>, prior: seq<T>, all: seq<T>)
    requires before + was == prior && before + now == all && prior <= all
    ensures now == was + all[|prior|..]
  {
    assert all == prior + all[|prior|..];
    assert now == all[|before|..];
  }

  /** A snapshot taken, in memory and not used. */
  predicate Keeps(s: State, id: nat, p: Point) {
    id in s.snapshots && s.snapshots[id] == p && id <= s.nextSnapshot
  }

  lemma OthersKeepSnapshot(cfg: Config, s: State, step: Step)
    requires ValidConfig(cfg) && Try(cfg, s, step).Some?
    requires !step.DoSnapshot? && !step.DoRevert? && !step.DoRestore? && !step.DoSwitchBranch? && !step.DoRestart?
    ensures After(cfg, s, step).snapshots == s.snapshots && After(cfg, s, step).nextSnapshot == s.nextSnapshot
  {
    hide CanBuildAt, Enqueue, ValidQueue, ValidRecord, Prepare, SafetyForChild, TaintSession, Chain, SafetyOf,
         Finalized, FinalizedBetween, MissedEvents, TransitionEvents, Snapshot, SwitchBranch, Revert, Restore, Restart;
  }

  lemma SwitchKeepsPoints(s: State, target: Block, targetSlot: nat)
    ensures var r := SwitchCanonical(s, target, targetSlot);
            r.Some? ==> && r.value.snapshots == s.snapshots && r.value.nextSnapshot == s.nextSnapshot
                        && r.value.checkpoints == s.checkpoints && r.value.records == s.records
  {
    hide SwitchCanonical;
    if SwitchCanonical(s, target, targetSlot).Some? { SwitchFrame(s, target, targetSlot); }
  }

  lemma PointStepsKeepSnapshot(cfg: Config, s: State, step: Step, id: nat, p: Point)
    requires ValidConfig(cfg) && Keeps(s, id, p) && step != DoRevert(id)
    requires step.DoSnapshot? || step.DoRevert? || step.DoRestore? || step.DoSwitchBranch?
    ensures Keeps(After(cfg, s, step), id, p)
  {
    hide SwitchCanonical, Finalized, ValidConfig, HeadPoint;
    match step
    case DoRevert(other) =>
      if other in s.snapshots { SwitchKeepsPoints(s, s.snapshots[other].block, s.snapshots[other].slot); }
    case DoRestore(name) =>
      if name in s.checkpoints { SwitchKeepsPoints(s, s.checkpoints[name].block, s.checkpoints[name].slot); }
    case DoSwitchBranch(name) =>
      if name in s.branches { SwitchKeepsPoints(s, s.branches[name].head, SlotOf(s.branches[name].head)); }
    case DoSnapshot =>
  }

  /** Until it is reverted to, or the node restarts, a snapshot stays. */
  lemma {:induction false} RunKeepsSnapshot(cfg: Config, s: State, steps: seq<Step>, id: nat, p: Point)
    requires ValidConfig(cfg) && Keeps(s, id, p)
    requires forall i :: 0 <= i < |steps| ==> !steps[i].DoRestart? && steps[i] != DoRevert(id)
    ensures Keeps(Run(cfg, s, steps), id, p)
    decreases |steps|
  {
    hide ValidConfig, Try;
    if steps != [] {
      var step := steps[0];
      if step.DoSnapshot? || step.DoRevert? || step.DoRestore? || step.DoSwitchBranch? {
        PointStepsKeepSnapshot(cfg, s, step, id, p);
      } else if Try(cfg, s, step).Some? {
        OthersKeepSnapshot(cfg, s, step);
      }
      RunKeepsSnapshot(cfg, After(cfg, s, step), steps[1..], id, p);
    }
  }

  /** A revert brings the moment of its snapshot back: the head, the clock, the slot index, and the queue with the
      requests issued since at its end, whatever happened in between short of a restart or an earlier revert to it. It
      is refused exactly when the node has run out of slots. */
  lemma SnapshotThenRevert(cfg: Config, s: State, steps: seq<Step>, t: nat)
    requires ValidConfig(cfg) && Inv(s) && t < CONTROL_TYPES && s.nextSnapshot < MAX_UINT64
    requires CanBuildAt(cfg, s.slot + 1)
    requires forall i :: 0 <= i < |steps| ==> !steps[i].DoRestart? && steps[i] != DoRevert(s.nextSnapshot + 1)
    ensures var late := Run(cfg, After(cfg, s, DoSnapshot), steps);
            var back := After(cfg, late, DoRevert(s.nextSnapshot + 1));
            if CanBuildAt(cfg, late.slot + 1) then ReturnsTo(s, late, back, t) else back == late
  {
    hide Inv, Run, After, SwitchCanonical, IssuedSince, ValidConfig, CanBuildAt;
    var id, taken := s.nextSnapshot + 1, After(cfg, s, DoSnapshot);
    var late := Run(cfg, taken, steps);
    SnapshotFrame(cfg, s);
    StepKeepsInv(cfg, s, DoSnapshot);
    RunKeepsSnapshot(cfg, taken, steps, id, HeadPoint(s));
    ReturnRestores(cfg, taken, steps, t);
    if CanBuildAt(cfg, late.slot + 1) {
      RevertSwitches(cfg, late, id);
    } else {
      NoSlotNoStep(cfg, late, DoRevert(id));
    }
  }

  lemma NoSlotNoStep(cfg: Config, s: State, step: Step)
    requires ValidConfig(cfg) && !CanBuildAt(cfg, s.slot + 1)
    ensures After(cfg, s, step) == s
  {
    hide CanBuildAt, ValidConfig;
  }

  /** `back` stands where `s` stood, with what was queued since `s` at the end of its queue. */
  ghost predicate ReturnsTo(s: State, late: State, back: State, t: nat) {
    && s.issued <= late.issued
    && back.head == s.head && back.slot == s.slot && back.index == s.index
    && back.queue.Of(t) == s.queue.Of(t) + IssuedSince(s.issued, late.issued, t)
  }

  lemma RevertSwitches(cfg: Config, s: State, id: nat)
    requires ValidConfig(cfg) && CanBuildAt(cfg, s.slot + 1)
    requires id in s.snapshots && !s.snapshots[id].used && s.snapshots[id].block in s.stored
    requires SwitchCanonical(s, s.snapshots[id].block, s.snapshots[id].slot).Some?
    ensures var back := SwitchCanonical(s, s.snapshots[id].block, s.snapshots[id].slot).value;
            var r := After(cfg, s, DoRevert(id));
            r.head == back.head && r.slot == back.slot && r.index == back.index && r.queue == back.queue
  {
    hide SwitchCanonical, CanBuildAt;
    assert Try(cfg, s, DoRevert(id)) == Revert(s, id);
  }

  lemma SnapshotFrame(cfg: Config, s: State)
    requires ValidConfig(cfg) && CanBuildAt(cfg, s.slot + 1) && s.nextSnapshot < MAX_UINT64
    ensures var taken := After(cfg, s, DoSnapshot);
            && taken.head == s.head && taken.slot == s.slot && taken.index == s.index && taken.issued == s.issued
            && taken.queue == s.queue && Keeps(taken, s.nextSnapshot + 1, HeadPoint(s))
  {
    hide ValidConfig, SafetyOf, CanBuildAt;
    assert Try(cfg, s, DoSnapshot) == Snapshot(s);
  }

  // ----- Checkpoints ----------------------------------------------------------------------------------------

  lemma OthersKeepCheckpoints(cfg: Config, s: State, step: Step)
    requires ValidConfig(cfg) && !step.DoCheckpoint? && !step.DoRevert? && !step.DoRestore? && !step.DoSwitchBranch?
    ensures After(cfg, s, step).checkpoints == s.checkpoints
  {
    hide CanBuildAt, Enqueue, ValidQueue, ValidRecord, Prepare, SafetyForChild, TaintSession, Chain, SafetyOf,
         Finalized, FinalizedBetween, MissedEvents, TransitionEvents, SwitchBranch, Revert, Restore,
         RuntimeMetadataValid, ControlMetadataValid, RequestMetadataValid;
  }

  lemma PointStepsKeepCheckpoint(cfg: Config, s: State, step: Step, name: string)
    requires ValidConfig(cfg) && name in s.checkpoints && step != DoCheckpoint(name)
    requires step.DoCheckpoint? || step.DoRevert? || step.DoRestore? || step.DoSwitchBranch?
    ensures var s' := After(cfg, s, step); name in s'.checkpoints && s'.checkpoints[name] == s.checkpoints[name]
  {
    hide SwitchCanonical, Finalized, ValidConfig, HeadPoint, CanBuildAt;
    match step
    case DoRevert(id) =>
      if id in s.snapshots { SwitchKeepsPoints(s, s.snapshots[id].block, s.snapshots[id].slot); }
    case DoRestore(other) =>
      if other in s.checkpoints { SwitchKeepsPoints(s, s.checkpoints[other].block, s.checkpoints[other].slot); }
    case DoSwitchBranch(branch) =>
      if branch in s.branches { SwitchKeepsPoints(s, s.branches[branch].head, SlotOf(s.branches[branch].head)); }
    case DoCheckpoint(_) =>
  }

  /** Until its name is taken again, a checkpoint stays, restarts included. */
  lemma {:induction false} RunKeepsCheckpoint(cfg: Config, s: State, steps: seq<Step>, name: string)
    requires ValidConfig(cfg) && name in s.checkpoints
    requires forall i :: 0 <= i < |steps| ==> steps[i] != DoCheckpoint(name)
    ensures var s' := Run(cfg, s, steps); name in s'.checkpoints && s'.checkpoints[name] == s.checkpoints[name]
    decreases |steps|
  {
    hide ValidConfig, After;
    if steps != [] {
      var step := steps[0];
      if step.DoCheckpoint? || step.DoRevert? || step.DoRestore? || step.DoSwitchBranch? {
        PointStepsKeepCheckpoint(cfg, s, step, name);
      } else {
        OthersKeepCheckpoints(cfg, s, step);
      }
      RunKeepsCheckpoint(cfg, After(cfg, s, step), steps[1..], name);
    }
  }

  /** Likewise a restore, whatever happened in between short of taking the name again. */
  lemma CheckpointThenRestore(cfg: Config, s: State, name: string, steps: seq<Step>, t: nat)
    requires ValidConfig(cfg) && Inv(s) && t < CONTROL_TYPES && name != "" && CanBuildAt(cfg, s.slot + 1)
    requires forall i :: 0 <= i < |steps| ==> steps[i] != DoCheckpoint(name)
    ensures var late := Run(cfg, After(cfg, s, DoCheckpoint(name)), steps);
            var back := After(cfg, late, DoRestore(name));
            if CanBuildAt(cfg, late.slot + 1) then ReturnsTo(s, late, back, t) else back == late
  {
    hide Inv, Run, After, SwitchCanonical, IssuedSince, ValidConfig, CanBuildAt;
    var taken := After(cfg, s, DoCheckpoint(name));
    var late := Run(cfg, taken, steps);
    CheckpointFrame(cfg, s, name);
    StepKeepsInv(cfg, s, DoCheckpoint(name));
    RunKeepsCheckpoint(cfg, taken, steps, name);
    ReturnRestores(cfg, taken, steps, t);
    if CanBuildAt(cfg, late.slot + 1) {
      RestoreSwitches(cfg, late, name);
    } else {
      NoSlotNoStep(cfg, late, DoRestore(name));
    }
  }

  lemma RestoreSwitches(cfg: Config, s: State, name: string)
    requires ValidConfig(cfg) && CanBuildAt(cfg, s.slot + 1)
    requires name in s.checkpoints && s.checkpoints[name].block in s.stored
    requires SwitchCanonical(s, s.checkpoints[name].block, s.checkpoints[name].slot).Some?
    ensures After(cfg, s, DoRestore(name)) ==
            SwitchCanonical(s, s.checkpoints[name].block, s.checkpoints[name].slot).value
  {
    hide SwitchCanonical, CanBuildAt;
    assert Try(cfg, s, DoRestore(name)) == Restore(s, name);
  }

  lemma CheckpointFrame(cfg: Config, s: State, name: string)
    requires ValidConfig(cfg) && CanBuildAt(cfg, s.slot + 1) && name != ""
    ensures var taken := After(cfg, s, DoCheckpoint(name));
            && taken.head == s.head && taken.slot == s.slot && taken.index == s.index && taken.issued == s.issued
            && taken.queue == s.queue && name in taken.checkpoints && taken.checkpoints[name] == HeadPoint(s)
  {
    hide ValidConfig, SafetyOf, CanBuildAt;
    assert Try(cfg, s, DoCheckpoint(name)) == Checkpoint(s, name);
  }
}
