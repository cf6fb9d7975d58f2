/** What the node announces as finalized, and what a branch switch may not undo. */
module NodeFinality {
  import opened Prelude
  import opened BlockTree
  import opened RequestQueue
  import opened Reconcile
  import opened Taint
  import opened NodeState
  import opened NodeInvariant
  import opened NodeSteps
  import opened NodeRestart
  import opened NodeRuns

  /** The last `finalized_checkpoint` event published. */
  function LastCheckpoint(events: seq<Event>): Option<Resolution> {
    if events == [] then None
    else
      var e := events[|events| - 1];
      if e.FinalizedCheckpoint? then Some(Resolution(e.slot, e.block)) else LastCheckpoint(events[..|events| - 1])
  }

  predicate AtStart(cfg: Config, r: Resolution)
    requires cfg.slotsPerEpoch > 0
  {
    r.block == Genesis && r.slot / cfg.slotsPerEpoch == 0
  }

  /** The last announcement names the block and epoch now resolved as finalized, and there is none exactly while these
      are genesis and epoch 0. */
  predicate Announced(cfg: Config, s: State)
    requires ValidConfig(cfg)
  {
    var last := LastCheckpoint(s.published);
    && (last.None? <==> AtStart(cfg, Finalized(cfg, s)))
    && (last.Some? ==> SameCheckpoint(cfg, last.value, Finalized(cfg, s)))
  }

  predicate NoCheckpoints(events: seq<Event>) {
    forall i :: 0 <= i < |events| ==> !events[i].FinalizedCheckpoint?
  }

  lemma {:induction false} LastIgnoresOthers(events: seq<Event>, more: seq<Event>)
    requires NoCheckpoints(more)
    ensures LastCheckpoint(events + more) == LastCheckpoint(events)
  {
    if more == [] {
      assert events + more == events;
    } else {
      var n := |more| - 1;
      assert (events + more)[..|events + more| - 1] == events + more[..n];
      LastIgnoresOthers(events, more[..n]);
    }
  }

  lemma LastAppended(events: seq<Event>, more: seq<Event>, e: Event)
    requires e.FinalizedCheckpoint?
    ensures LastCheckpoint(events + more + [e]) == Some(Resolution(e.slot, e.block))
  {
  }

  // ----- Resolution -----------------------------------------------------------------------------------------

  /** What resolving from a chain tip gives, by the parent walk. */
  function CheckpointOf(cfg: Config, tip: Block, finalitySlot: nat): Resolution {
    var slot := SubtractSlots(finalitySlot, 2 * cfg.slotsPerEpoch);
    Resolution(slot, ParentWalk(tip, slot))
  }

  lemma ResolveIsWalk(cfg: Config, s: State, headSlot: nat)
    requires TreeInv(s) && IndexInv(s)
    ensures ResolveAt(cfg, s, headSlot) == CheckpointOf(cfg, s.head, headSlot)
  {
    LookupIsParentWalk(s.head, SubtractSlots(headSlot, 2 * cfg.slotsPerEpoch));
  }

  lemma LessThanOne(k: int, n: nat)
    requires k * n < n
    ensures k <= 0
  {
  }

  lemma DivisionMonotone(a: nat, b: nat, n: nat)
    requires a <= b && n > 0
    ensures a / n <= b / n
  {
    var p, q := a / n, b / n;
    assert a == p * n + a % n && b == q * n + b % n;
    assert (p - q) * n == p * n - q * n;
    LessThanOne(p - q, n);
  }

  /** Resolving later on one chain never goes back. */
  lemma CheckpointMonotone(cfg: Config, tip: Block, low: nat, high: nat)
    requires ValidConfig(cfg) && SlotsIncrease(tip) && low <= high
    ensures var a, b := CheckpointOf(cfg, tip, low), CheckpointOf(cfg, tip, high);
            a.slot <= b.slot && Ancestor(a.block, b.block) && (AtStart(cfg, b) ==> AtStart(cfg, a))
  {
    var a, b := CheckpointOf(cfg, tip, low), CheckpointOf(cfg, tip, high);
    ParentWalkMonotone(tip, a.slot, b.slot);
    DivisionMonotone(a.slot, b.slot, cfg.slotsPerEpoch);
  }

  /** A child of the head past the finality lag does not change what is resolved. */
  lemma CheckpointOfChild(cfg: Config, tip: Block, finalitySlot: nat)
    requires ValidConfig(cfg) && tip.Child? && finalitySlot <= tip.slot && 0 < tip.slot
    ensures CheckpointOf(cfg, tip, finalitySlot) == CheckpointOf(cfg, tip.parent, finalitySlot)
  {
  }

  /** What is finalized is the parent walk to the slot two epochs behind the clock, or behind the frozen slot. */
  lemma FinalizedIsWalk(cfg: Config, s: State)
    requires Inv(s)
    ensures Finalized(cfg, s) == CheckpointOf(cfg, s.head, FinalitySlot(s, s.slot))
    ensures var r, f, lag := Finalized(cfg, s), if s.paused then s.finalitySlot else s.slot, 2 * cfg.slotsPerEpoch;
            r.block == ParentWalk(s.head, r.slot) && if f > lag then r.slot + lag == f else r.slot == 0
  {
    ResolveIsWalk(cfg, s, FinalitySlot(s, s.slot));
  }

  // ----- Announcements --------------------------------------------------------------------------------------

  /** Publishing the transition from what was resolved to what will be keeps the announcement exact. */
  lemma TransitionIsAnnounced(cfg: Config, s: State, s': State, quiet: seq<Event>)
    requires ValidConfig(cfg) && Announced(cfg, s) && NoCheckpoints(quiet)
    requires var a, b := Finalized(cfg, s), Finalized(cfg, s');
             s'.published == s.published + quiet + TransitionEvents(cfg, a, b) && (AtStart(cfg, b) ==> AtStart(cfg, a))
    ensures Announced(cfg, s')
  {
    hide Finalized, LastCheckpoint, NoCheckpoints;
    var a, b := Finalized(cfg, s), Finalized(cfg, s');
    LastIgnoresOthers(s.published, quiet);
    if SameCheckpoint(cfg, a, b) {
      assert s'.published == s.published + quiet;
    } else {
      LastAppended(s.published, quiet, FinalizedCheckpoint(b.slot, b.block));
    }
  }

  lemma QuietIsAnnounced(cfg: Config, s: State, s': State, quiet: seq<Event>)
    requires ValidConfig(cfg) && Announced(cfg, s) && NoCheckpoints(quiet) && s'.published == s.published + quiet
    ensures Announced(cfg, s') <==> SameCheckpoint(cfg, Finalized(cfg, s), Finalized(cfg, s'))
  {
    hide Finalized, LastCheckpoint, NoCheckpoints;
    LastIgnoresOthers(s.published, quiet);
  }

  /** Moving the clock along the same chain: the finality slot only grows. */
  lemma ClockForward(cfg: Config, s: State, to: nat)
    requires ValidConfig(cfg) && Inv(s) && s.slot <= to
    ensures Resolve(cfg, s, to) == CheckpointOf(cfg, s.head, FinalitySlot(s, to))
    ensures AtStart(cfg, Resolve(cfg, s, to)) ==> AtStart(cfg, Finalized(cfg, s))
    ensures Ancestor(Finalized(cfg, s).block, Resolve(cfg, s, to).block)
    ensures Finalized(cfg, s).slot <= Resolve(cfg, s, to).slot
  {
    hide IndexInv, SafetyInv, PointsInv, RequestInv, EventInv, CheckpointOf, AtStart;
    ResolveIsWalk(cfg, s, FinalitySlot(s, to));
    FinalizedIsWalk(cfg, s);
    CheckpointMonotone(cfg, s.head, FinalitySlot(s, s.slot), FinalitySlot(s, to));
  }

  lemma MineForward(cfg: Config, s: State, kind: Kind, built: Built)
    requires ValidConfig(cfg) && Inv(s) && Mine(cfg, s, kind, built).Some?
    ensures var s' := Mine(cfg, s, kind, built).value;
            && Finalized(cfg, s') == Resolve(cfg, s, s.slot + 1)
            && s'.published == s.published + [BlockEvent(s.slot + 1, s'.head, false, kind.Override?)] +
                               TransitionEvents(cfg, Finalized(cfg, s), Finalized(cfg, s'))
  {
    hide ValidRecord, Prepare, CanBuildAt, SafetyForChild, TaintSession, CheckpointOf, ResolveAt, TransitionEvents, Inv;
    var s' := Mine(cfg, s, kind, built).value;
    MineKeepsInv(cfg, s, kind, built);
    FinalizedIsWalk(cfg, s');
    ClockForward(cfg, s, s.slot + 1);
    assert FinalitySlot(s', s'.slot) == FinalitySlot(s, s.slot + 1);
    CheckpointOfChild(cfg, s'.head, FinalitySlot(s', s'.slot));
  }

  lemma MissForward(cfg: Config, s: State, count: nat)
    requires ValidConfig(cfg) && Inv(s) && count > 0 && MissSlots(cfg, s, count).Some?
    ensures var s' := MissSlots(cfg, s, count).value;
            && Finalized(cfg, s') == Resolve(cfg, s, s.slot + count)
            && s'.published == s.published + MissedEvents(s.slot, count) +
                               TransitionEvents(cfg, Finalized(cfg, s), Finalized(cfg, s'))
  {
    hide CanBuildAt, BlockAtOrBefore, TransitionEvents, Inv;
  }

  lemma ResumeForward(cfg: Config, s: State)
    requires ValidConfig(cfg) && Inv(s) && s.paused
    ensures var s' := Resume(cfg, s);
            && Finalized(cfg, s') == CheckpointOf(cfg, s.head, s.slot)
            && s'.published == s.published + TransitionEvents(cfg, Finalized(cfg, s), Finalized(cfg, s'))
            && (AtStart(cfg, Finalized(cfg, s')) ==> AtStart(cfg, Finalized(cfg, s)))
            && Ancestor(Finalized(cfg, s).block, Finalized(cfg, s').block)
            && Finalized(cfg, s).slot <= Finalized(cfg, s').slot
  {
    hide BlockAtOrBefore, TransitionEvents, IndexInv, SafetyInv, PointsInv, RequestInv, EventInv, CheckpointOf, AtStart;
    var s' := Resume(cfg, s);
    assert FinalitySlot(s, s.slot) == Min(s.slot, s.finalitySlot);
    FinalizedIsWalk(cfg, s);
    ResolveIsWalk(cfg, s, s.slot);
    assert Finalized(cfg, s') == ResolveAt(cfg, s, s.slot);
    CheckpointMonotone(cfg, s.head, FinalitySlot(s, s.slot), s.slot);
  }

  predicate Rewinds(step: Step) {
    step.DoSwitchBranch? || step.DoRevert? || step.DoRestore?
  }

  /** What a step that neither mines nor moves the clock leaves alone. */
  lemma StillSteps(cfg: Config, s: State, step: Step)
    requires ValidConfig(cfg) && Inv(s) && Try(cfg, s, step).Some?
    requires !Rewinds(step) && !step.DoMine? && !step.DoMissSlots? && !step.DoResume?
    ensures var s' := After(cfg, s, step);
            Finalized(cfg, s') == Finalized(cfg, s) && s'.published == s.published
  {
    hide CanBuildAt, BlockAtOrBefore, Inv, ValidRecord, Prepare, SafetyForChild, Enqueue, ValidQueue,
         RuntimeMetadataValid, ControlMetadataValid, RequestMetadataValid, Chain, SafetyOf, Mine, SwitchBranch,
         MissSlots, Revert, Restore, Resume;
    match step
    case DoPause => assert FinalitySlot(Pause(s), s.slot) == FinalitySlot(s, s.slot);
    case DoRestart => RestartSucceedsIffIntact(cfg, s);
    case _ =>
  }

  lemma {:induction false} MissedAreQuiet(start: nat, count: nat)
    ensures NoCheckpoints(MissedEvents(start, count))
  {
    if count > 0 { MissedAreQuiet(start, count - 1); }
  }

  /** Without a rewind the finalized checkpoint only moves forward, and each move is announced. */
  lemma StepIsAnnounced(cfg: Config, s: State, step: Step)
    requires ValidConfig(cfg) && Inv(s) && !Rewinds(step)
    ensures var s' := After(cfg, s, step);
            && Ancestor(Finalized(cfg, s).block, Finalized(cfg, s').block)
            && Finalized(cfg, s).slot <= Finalized(cfg, s').slot
            && (Announced(cfg, s) ==> Announced(cfg, s'))
  {
    hide Inv, ValidConfig, Mine, MineBranch, CreateBranch, SwitchBranch, MissSlots, Snapshot, Revert, Checkpoint,
         Restore, AddRequest, Restart, Pause, Resume, Announced, Finalized, TransitionEvents, AtStart, Resolve;
    var s' := After(cfg, s, step);
    if s' != s {
      match step
      case DoMine(kind, built) =>
        MineForward(cfg, s, kind, built);
        ClockForward(cfg, s, s.slot + 1);
        if Announced(cfg, s) {
          TransitionIsAnnounced(cfg, s, s', [BlockEvent(s.slot + 1, s'.head, false, kind.Override?)]);
        }
      case DoMissSlots(count) =>
        MissNothing(cfg, s);
        MissForward(cfg, s, count);
        ClockForward(cfg, s, s.slot + count);
        MissedAreQuiet(s.slot, count);
        if Announced(cfg, s) { TransitionIsAnnounced(cfg, s, s', MissedEvents(s.slot, count)); }
      case DoResume =>
        ResumeRunning(cfg, s);
        ResumeForward(cfg, s);
        assert s.published + [] == s.published;
        if Announced(cfg, s) { TransitionIsAnnounced(cfg, s, s', []); }
      case _ =>
        StillSteps(cfg, s, step);
        StillAnnounced(cfg, s, s');
    }
  }

  lemma MissNothing(cfg: Config, s: State)
    requires ValidConfig(cfg)
    ensures MissSlots(cfg, s, 0) == Some(s)
  {
  }

  lemma ResumeRunning(cfg: Config, s: State)
    requires ValidConfig(cfg)
    ensures !s.paused ==> Resume(cfg, s) == s
  {
  }

  lemma StillAnnounced(cfg: Config, s: State, s': State)
    requires ValidConfig(cfg) && Finalized(cfg, s') == Finalized(cfg, s) && s'.published == s.published
    ensures Announced(cfg, s) ==> Announced(cfg, s')
  {
  }

  /** In every run without rewinds, from any announced state, the last announcement stays exact and finality never goes
      back. */
  lemma {:induction false} RunIsAnnounced(cfg: Config, s: State, steps: seq<Step>)
    requires ValidConfig(cfg) && Inv(s) && Announced(cfg, s)
    requires forall i :: 0 <= i < |steps| ==> !Rewinds(steps[i])
    ensures var s' := Run(cfg, s, steps);
            && Announced(cfg, s')
            && Ancestor(Finalized(cfg, s).block, Finalized(cfg, s').block)
            && Finalized(cfg, s).slot <= Finalized(cfg, s').slot
    decreases |steps|
  {
    hide Inv, Announced, Finalized, After;
    if steps != [] {
      var next := After(cfg, s, steps[0]);
      StepIsAnnounced(cfg, s, steps[0]);
      StepKeepsInv(cfg, s, steps[0]);
      RunIsAnnounced(cfg, next, steps[1..]);
      AncestorTransitive(Finalized(cfg, s).block, Finalized(cfg, next).block, Finalized(cfg, Run(cfg, s, steps)).block);
    }
  }

  lemma InitialIsAnnounced(cfg: Config)
    requires ValidConfig(cfg)
    ensures Announced(cfg, INITIAL)
  {
  }

  /** So it is exact in every run without rewinds from the first start on. */
  lemma FirstRunIsAnnounced(cfg: Config, steps: seq<Step>)
    requires ValidConfig(cfg) && forall i :: 0 <= i < |steps| ==> !Rewinds(steps[i])
    ensures Announced(cfg, Run(cfg, INITIAL, steps))
  {
    hide Announced, Run, Inv;
    InitialInv();
    InitialIsAnnounced(cfg);
    RunIsAnnounced(cfg, INITIAL, steps);
  }

  /** While paused, and until a resume or a rewind, nothing moves the finalized checkpoint. */
  lemma PauseFreezes(cfg: Config, s: State, step: Step)
    requires ValidConfig(cfg) && Inv(s) && s.paused && !Rewinds(step) && !step.DoResume?
    ensures Finalized(cfg, After(cfg, s, step)) == Finalized(cfg, s)
  {
    hide Inv, ValidConfig, Mine, MineBranch, CreateBranch, SwitchBranch, MissSlots, Snapshot, Revert, Checkpoint,
         Restore, AddRequest, Restart, Pause, Resume, ResolveAt, TransitionEvents;
    var s' := After(cfg, s, step);
    assert s.finalitySlot <= s.slot by { hide *; PausedInRange(s); }
    if s' != s {
      match step
      case DoMine(kind, built) => MineForward(cfg, s, kind, built);
      case DoMissSlots(count) => MissNothing(cfg, s); MissForward(cfg, s, count);
      case _ => StillSteps(cfg, s, step);
    }
  }

  lemma PausedInRange(s: State)
    requires Inv(s) && s.paused
    ensures s.finalitySlot <= s.slot
  {
  }

  // ----- Rewinds --------------------------------------------------------------------------------------------

  /** What will be resolved after switching to `target`, from what is known before. */
  function TargetCheckpoint(cfg: Config, s: State, target: Block, targetSlot: nat): Resolution {
    CheckpointOf(cfg, target, if s.paused then Min(s.finalitySlot, targetSlot) else targetSlot)
  }

  lemma {:induction false} RemovedAreQuiet(path: seq<Block>)
    ensures NoCheckpoints(RemovedEvents(path)) && NoCheckpoints(AddedEvents(path))
  {
    if path != [] { RemovedAreQuiet(path[1..]); }
  }

  lemma SwitchedFinality(cfg: Config, s: State, target: Block, targetSlot: nat)
    requires Inv(s) && SwitchCanonical(s, target, targetSlot).Some?
    ensures var s' := SwitchCanonical(s, target, targetSlot).value;
            && FinalitySlot(s', s'.slot) == (if s.paused then Min(s.finalitySlot, targetSlot) else targetSlot)
            && (s' == s || s'.published == s.published + SwitchEvents(s.head, target, targetSlot))
  {
    hide Reconciled, ValidQueue, Entered, Kept, Dropped, SwitchEvents, IndexInv, SafetyInv, PointsInv, RequestInv,
         EventInv;
  }

  lemma SwitchIsQuiet(oldHead: Block, target: Block, targetSlot: nat)
    ensures NoCheckpoints(SwitchEvents(oldHead, target, targetSlot))
  {
    var c := Lca(oldHead, target);
    RemovedAreQuiet(Above(oldHead, c));
    RemovedAreQuiet(Above(target, c));
  }

  /** A switch announces nothing, so the announcement stays exact if and only if the target chain resolves to the
      checkpoint resolved before. */
  lemma SwitchIsAnnouncedIffSame(cfg: Config, s: State, target: Block, targetSlot: nat)
    requires ValidConfig(cfg) && Inv(s) && Announced(cfg, s) && target in s.stored && SlotOf(target) <= targetSlot
    ensures SwitchCanonical(s, target, targetSlot).Some?
    ensures Announced(cfg, SwitchCanonical(s, target, targetSlot).value) <==>
            SameCheckpoint(cfg, Finalized(cfg, s), TargetCheckpoint(cfg, s, target, targetSlot))
  {
    hide SwitchCanonical, Inv, Announced, Finalized, SwitchEvents, CheckpointOf;
    SwitchKeepsInv(s, target, targetSlot);
    var s' := SwitchCanonical(s, target, targetSlot).value;
    SwitchFrame(s, target, targetSlot);
    SwitchedFinality(cfg, s, target, targetSlot);
    FinalizedIsWalk(cfg, s');
    SwitchIsQuiet(s.head, target, targetSlot);
    if s' == s {
      assert s.published + [] == s.published;
      QuietIsAnnounced(cfg, s, s', []);
    } else {
      QuietIsAnnounced(cfg, s, s', SwitchEvents(s.head, target, targetSlot));
    }
  }

  /** Rewinding can leave a stale announcement: from a checkpoint at genesis, three missed slots finalize epoch 1 of
      one-slot epochs, and restoring the checkpoint returns to epoch 0 without an event. */
  lemma RestoreCanLeaveStaleAnnouncement()
    ensures var cfg := Config(1, 0, 1);
            var s := INITIAL.(checkpoints := map["a" := Point(Genesis, 0, false, false)]);
            && ValidConfig(cfg) && After(cfg, INITIAL, DoCheckpoint("a")) == s
            && !Announced(cfg, After(cfg, After(cfg, s, DoMissSlots(3)), DoRestore("a")))
  {
    hide Inv, Announced, SwitchCanonical, Finalized;
    var cfg := Config(1, 0, 1);
    var s := INITIAL.(checkpoints := map["a" := Point(Genesis, 0, false, false)]);
    assert CanBuildAt(cfg, 1) && CanBuildAt(cfg, 4);
    CheckpointAtStart(cfg);
    InitialInv();
    StepKeepsInv(cfg, INITIAL, DoCheckpoint("a"));
    StepKeepsInv(cfg, s, DoMissSlots(3));
    InitialIsAnnounced(cfg);
    var late := After(cfg, s, DoMissSlots(3));
    MissThree(cfg, s);
    assert Announced(cfg, late) by {
      StepIsAnnounced(cfg, INITIAL, DoCheckpoint("a"));
      StepIsAnnounced(cfg, s, DoMissSlots(3));
    }
    FinalizedIsWalk(cfg, late);
    SwitchIsAnnouncedIffSame(cfg, late, Genesis, 0);
    RestoreSwitches(cfg, late);
  }

  lemma CheckpointAtStart(cfg: Config)
    requires ValidConfig(cfg) && CanBuildAt(cfg, 1)
    ensures After(cfg, INITIAL, DoCheckpoint("a")) ==
            INITIAL.(checkpoints := map["a" := Point(Genesis, 0, false, false)])
  {
    assert Try(cfg, INITIAL, DoCheckpoint("a")) == Checkpoint(INITIAL, "a");
  }

  lemma MissThree(cfg: Config, s: State)
    requires cfg == Config(1, 0, 1) && s.slot == 0
    ensures var late := After(cfg, s, DoMissSlots(3));
            && late.slot == 3 && late.head == s.head && late.paused == s.paused && late.checkpoints == s.checkpoints
            && late.stored == s.stored
  {
    hide FinalizedBetween, MissedEvents;
    assert Try(cfg, s, DoMissSlots(3)) == MissSlots(cfg, s, 3);
  }

  lemma RestoreSwitches(cfg: Config, s: State)
    requires ValidConfig(cfg) && CanBuildAt(cfg, s.slot + 1)
    requires "a" in s.checkpoints && s.checkpoints["a"] == Point(Genesis, 0, false, false)
    requires Genesis in s.stored && SwitchCanonical(s, Genesis, 0).Some?
    ensures After(cfg, s, DoRestore("a")) == SwitchCanonical(s, Genesis, 0).value
  {
    hide SwitchCanonical, CanBuildAt;
    assert Try(cfg, s, DoRestore("a")) == Restore(s, "a");
  }

  // ----- Branch switches ------------------------------------------------------------------------------------

  /** The guard of `SwitchBranch` lets through exactly the branches that contain the finalized block. */
  lemma GuardIsFinalizedOnBranch(cfg: Config, s: State, target: Block)
    requires Inv(s)
    ensures Number(Lca(s.head, target)) < Number(Finalized(cfg, s).block) <==>
            !Ancestor(Finalized(cfg, s).block, target)
  {
    hide Finalized, SafetyInv, PointsInv, RequestInv, EventInv, IndexInv;
    var f, c := Finalized(cfg, s).block, Lca(s.head, target);
    FinalizedIsWalk(cfg, s);
    assert Ancestor(f, s.head);
    if Ancestor(f, target) {
      LcaIsLowest(s.head, target, f);
      AncestorNumber(f, c);
    }
    if Number(f) <= Number(c) {
      AncestorsAreOrdered(f, c, s.head);
      AncestorTransitive(f, c, target);
    }
  }

  /** After every run, switching to a branch succeeds exactly when its chain contains the finalized block, and then
      leaves that block canonical. */
  lemma SwitchBranchKeepsFinalized(cfg: Config, steps: seq<Step>, name: string)
    requires ValidConfig(cfg) && name in Run(cfg, INITIAL, steps).branches
    ensures var s := Run(cfg, INITIAL, steps);
            var f, target := Finalized(cfg, s).block, s.branches[name].head;
            && (SwitchBranch(cfg, s, name).Some? <==> Ancestor(f, target))
            && (SwitchBranch(cfg, s, name).Some? ==>
                  SwitchBranch(cfg, s, name).value.head == target && Ancestor(f, SwitchBranch(cfg, s, name).value.head))
  {
    hide Run, SwitchCanonical, Finalized, TreeInv, IndexInv, SafetyInv, RequestInv, EventInv, TaintedChain;
    var s := Run(cfg, INITIAL, steps);
    ReachableInv(cfg, steps);
    assert GoodBranch(s, s.branches[name]);
    var target := s.branches[name].head;
    GuardIsFinalizedOnBranch(cfg, s, target);
    SwitchKeepsInv(s, target, SlotOf(target));
    SwitchFrame(s, target, SlotOf(target));
  }

  /** After every run a branch can be created exactly at the canonical blocks that descend from the finalized one; it
      starts there and nothing else changes. */
  lemma CreateBranchIffFinalized(cfg: Config, steps: seq<Step>, name: string, number: nat)
    requires ValidConfig(cfg)
    ensures var s := Run(cfg, INITIAL, steps);
            var r := CreateBranch(cfg, s, name, number);
            && (r.Some? <==>
                  && 0 < |name| <= 15 && name !in s.branches && number <= Number(s.head)
                  && Ancestor(Finalized(cfg, s).block, Chain(s.head)[number]))
            && (r.Some? ==>
                  && name in r.value.branches && r.value == s.(branches := s.branches[name := r.value.branches[name]])
                  && var item := r.value.branches[name];
                     Ancestor(item.base, s.head) && Number(item.base) == number && item.head == item.base)
  {
    hide Run, Finalized, IndexInv, SafetyInv, PointsInv, RequestInv, EventInv, SafetyOf;
    var s := Run(cfg, INITIAL, steps);
    ReachableInv(cfg, steps);
    if number <= Number(s.head) {
      var base, f := Chain(s.head)[number], Finalized(cfg, s).block;
      AncestorOnChain(base, s.head);
      FinalizedIsWalk(cfg, s);
      assert Ancestor(f, s.head);
      if Number(f) <= number { AncestorsAreOrdered(f, base, s.head); } else { BelowIsNoDescendant(f, base, s.head); }
    }
  }

  lemma BelowIsNoDescendant(f: Block, base: Block, head: Block)
    requires Ancestor(f, head) && Ancestor(base, head) && Number(base) < Number(f)
    ensures !Ancestor(f, base) && base != head
  {
  }
}
