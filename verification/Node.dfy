/** The node in the source's form.

A write first computes everything it will change with loops over the chain, the queue and the slot index, then applies
it to the fields.  The computing methods are proved equal to the step functions of the same name, so every write keeps
the invariant of every run. */
module Node {
  import opened Prelude
  import opened BlockTree
  import opened RequestQueue
  import opened Reconcile
  import opened Ledger
  import opened Taint
  import opened NodeState
  import opened NodeInvariant
  import opened NodeRuns
  import opened NodeFinality
  import opened NodeEffects

  /** The canonical index after the switch, and the deletes journaled for the persisted one. */
  method EditSlotIndex(index: map<nat, Block>, oldPath: seq<Block>, newPath: seq<Block>, targetSlot: nat)
    returns (slots: map<nat, Block>, deletes: set<nat>)
    ensures slots == Entered(Kept(index, oldPath, targetSlot), newPath)
    ensures deletes == Dropped(index, oldPath, targetSlot)
  {
    slots, deletes := index, {};
    var rest := index.Keys;
    while rest != {}
      invariant rest <= index.Keys
      invariant forall at :: at in deletes <==> at in index && at !in rest && (at > targetSlot || index[at] in oldPath)
      invariant forall at :: at in slots <==> at in index && at !in deletes
      invariant forall at :: at in slots ==> slots[at] == index[at]
      decreases |rest|
    {
      var at :| at in rest;
      rest := rest - {at};
      if at > targetSlot {
        slots, deletes := slots - {at}, deletes + {at};
      } else {
        var removed := false;
        for i := 0 to |oldPath|
          invariant removed <==> index[at] in oldPath[..i]
        {
          assert oldPath[..i + 1] == oldPath[..i] + [oldPath[i]];
          if index[at] == oldPath[i] { removed := true; }
        }
        assert oldPath[..|oldPath|] == oldPath;
        if removed { slots, deletes := slots - {at}, deletes + {at}; }
      }
    }
    assert slots == Kept(index, oldPath, targetSlot);
    ghost var kept := slots;
    assert newPath[|newPath|..] == [] && newPath[0..] == newPath;
    for i := |newPath| downto 0
      invariant slots == Entered(kept, newPath[i..])
    {
      assert newPath[i..][1..] == newPath[i + 1..];
      slots := slots[SlotOf(newPath[i]) := newPath[i]];
    }
  }

  /** Puts in journal order. */
  method PutSlots(disk: map<nat, Block>, path: seq<Block>) returns (r: map<nat, Block>)
    ensures r == Entered(disk, path)
  {
    r := disk;
    assert path[|path|..] == [] && path[0..] == path;
    for i := |path| downto 0
      invariant r == Entered(disk, path[i..])
    {
      assert path[i..][1..] == path[i + 1..];
      r := r[SlotOf(path[i]) := path[i]];
    }
  }

  lemma {:induction false} RemovedSnoc(path: seq<Block>, b: Block)
    ensures RemovedEvents(path + [b]) == RemovedEvents(path) + [BlockEvent(SlotOf(b), b, true, false)]
  {
    if path == [] {
      assert path + [b] == [b] && [b][1..] == [];
    } else {
      assert (path + [b])[1..] == path[1..] + [b];
      RemovedSnoc(path[1..], b);
    }
  }

  method EventsOfSwitch(oldHead: Block, target: Block, targetSlot: nat, oldPath: seq<Block>, newPath: seq<Block>)
    returns (events: seq<Event>)
    requires oldPath == Above(oldHead, Lca(oldHead, target)) && newPath == Above(target, Lca(oldHead, target))
    ensures events == SwitchEvents(oldHead, target, targetSlot)
  {
    events := [];
    for i := 0 to |oldPath|
      invariant events == RemovedEvents(oldPath[..i])
    {
      assert oldPath[..i + 1] == oldPath[..i] + [oldPath[i]];
      RemovedSnoc(oldPath[..i], oldPath[i]);
      events := events + [BlockEvent(SlotOf(oldPath[i]), oldPath[i], true, false)];
    }
    assert oldPath[..|oldPath|] == oldPath && newPath[0..] == newPath && newPath[|newPath|..] == [];
    for i := |newPath| downto 0
      invariant events == RemovedEvents(oldPath) + AddedEvents(newPath[i..])
    {
      assert newPath[i..][1..] == newPath[i + 1..];
      events := events + [BlockEvent(SlotOf(newPath[i]), newPath[i], false, false)];
    }
    if oldHead != target { events := events + [Reorg(targetSlot, oldHead, target, |oldPath|)]; }
  }

  // ----- Computing the writes -------------------------------------------------------------------------------

  /** `resolveSyntheticFinalityAt`, finalized half: two epochs back, and there the latest block of the chain. */
  method ResolveFinality(cfg: Config, s: State, headSlot: nat) returns (r: Resolution)
    ensures r == ResolveAt(cfg, s, headSlot)
    ensures if headSlot > 2 * cfg.slotsPerEpoch then r.slot + 2 * cfg.slotsPerEpoch == headSlot else r.slot == 0
    ensures TreeInv(s) && IndexInv(s) ==> r == CheckpointOf(cfg, s.head, headSlot) && LatestBy(r.block, s.head, r.slot)
  {
    var at := SubtractSlots(headSlot, 2 * cfg.slotsPerEpoch);
    var b := LookUpSlot(s.index, s.head, at);
    if TreeInv(s) && IndexInv(s) { WalkIsLatest(s.head, at); }
    return Resolution(at, b);
  }

  /** `finalizedEventBetween`. */
  method FinalizedEvents(cfg: Config, s: State, fromSlot: nat, toSlot: nat) returns (events: seq<Event>)
    requires cfg.slotsPerEpoch > 0
    ensures events == FinalizedBetween(cfg, s, fromSlot, toSlot)
  {
    hide ResolveAt;
    var from := ResolveFinality(cfg, s, FinalitySlot(s, fromSlot));
    var to := ResolveFinality(cfg, s, FinalitySlot(s, toSlot));
    if from.block == to.block && from.slot / cfg.slotsPerEpoch == to.slot / cfg.slotsPerEpoch { return []; }
    return [FinalizedCheckpoint(to.slot, to.block)];
  }

  method PlanMine(cfg: Config, s: State, kind: Kind, built: Built) returns (r: Option<State>)
    requires ValidConfig(cfg)
    ensures r == NodeState.Mine(cfg, s, kind, built)
    ensures r.Some? ==> IsBuilt(r.value.head, s.head, s.slot + 1, kind, built)
  {
    hide Prepare, CanBuildAt, ValidQueue, ValidRecord, SafetyForChild, TaintSession, FinalizedBetween;
    if !CanBuildAt(cfg, s.slot + 1) { return None; }
    var prepared := PrepareBlock(built.native, built.numbered, built.native, s.queue);
    if prepared.None? { return None; }
    var p := prepared.value;
    var recordOk := ValidateRecord(p.record);
    var queueOk := ValidateQueue(p.remaining);
    if !recordOk || (p.controlled && !queueOk) { return None; }
    var b := Child(s.head, s.slot + 1, kind, built.body, built.native, p.requests);
    assert IsBuilt(b, s.head, s.slot + 1, kind, built);
    hide IsBuilt;
    var reasons := [];
    if kind.Override? { reasons := reasons + [STATE_OVERRIDE]; }
    if p.controlled { reasons := reasons + [REQUEST_CONTROL]; }
    assert reasons == UnsafeReasons(kind, p.controlled);
    var safety := ChildSafety(SafetyOf(s, s.head), b, reasons);
    var session := s.session;
    if reasons != [] { session := StoreSessionTaint(session, safety, reasons); }
    var events := [BlockEvent(b.slot, b, false, kind.Override?)];
    var finalized := FinalizedEvents(cfg, s, s.slot, b.slot);
    assert s.published + (events + finalized) == s.published + events + finalized;
    return Some(s.(stored := s.stored + {b}, head := b, slot := b.slot, index := s.index[b.slot := b],
                   disk := s.disk[b.slot := b], safety := s.safety[b := safety], session := session,
                   queue := p.remaining, records := s.records[b := p.record],
                   published := s.published + (events + finalized)));
  }

  method PlanMissSlots(cfg: Config, s: State, count: nat) returns (ok: bool, events: seq<Event>)
    requires ValidConfig(cfg)
    ensures Try(cfg, s, DoMissSlots(count)) ==
            if ok then Some(s.(slot := s.slot + count, published := s.published + events)) else None
  {
    hide CanBuildAt, FinalizedBetween;
    ok, events := false, [];
    if !CanBuildAt(cfg, s.slot + 1) { return; }
    assert Try(cfg, s, DoMissSlots(count)) == NodeState.MissSlots(cfg, s, count);
    hide Try;
    assert s.published + [] == s.published;
    if count == 0 { return true, []; }
    if !CanBuildAt(cfg, s.slot + count + 1) { return; }
    for offset := 0 to count
      invariant events == MissedEvents(s.slot, offset)
    {
      events := events + [MissedSlot(s.slot + (offset + 1))];
    }
    var finalized := FinalizedEvents(cfg, s, s.slot, s.slot + count);
    assert s.published + (events + finalized) == s.published + events + finalized;
    return true, events + finalized;
  }

  method PlanResume(cfg: Config, s: State) returns (r: State)
    requires ValidConfig(cfg)
    ensures r == Resume(cfg, s)
  {
    hide ResolveAt;
    if !s.paused { return s; }
    var from := ResolveFinality(cfg, s, if s.slot < s.finalitySlot then s.slot else s.finalitySlot);
    var to := ResolveFinality(cfg, s, s.slot);
    return s.(paused := false, finalitySlot := 0, published := s.published + TransitionEvents(cfg, from, to));
  }

  /** `switchCanonical`. */
  method PlanSwitch(s: State, target: Block, targetSlot: nat) returns (r: Option<State>)
    ensures r == NodeState.SwitchCanonical(s, target, targetSlot)
  {
    hide Reconciled, ValidQueue, Entered, Kept, Dropped, SwitchEvents, Above, Lca;
    if s.head == target && s.slot == targetSlot { return Some(s); }
    var oldPath, newPath := DivergentPaths(s.head, target);
    var reconciled := ReconcileQueue(s.records, s.queue, oldPath, newPath);
    if reconciled.None? || !ValidQueue(reconciled.value) { return None; }
    var slots, deletes := EditSlotIndex(s.index, oldPath, newPath, targetSlot);
    var persisted := PutSlots(s.disk, newPath);
    var events := EventsOfSwitch(s.head, target, targetSlot, oldPath, newPath);
    var frozen := s.finalitySlot;
    if s.paused && s.finalitySlot > targetSlot { frozen := targetSlot; }
    return Some(s.(head := target, slot := targetSlot, queue := reconciled.value, finalitySlot := frozen,
                   index := slots, disk := persisted - deletes, published := s.published + events));
  }

  method PlanSwitchBranch(cfg: Config, s: State, name: string) returns (r: Option<State>)
    ensures r == NodeState.SwitchBranch(cfg, s, name)
  {
    hide NodeState.SwitchCanonical, Lca, ResolveAt;
    if name !in s.branches || s.branches[name].head !in s.stored { return None; }
    var target := s.branches[name].head;
    var oldPath, newPath := DivergentPaths(s.head, target);
    var common := s.head;
    for i := 0 to |oldPath|
      invariant Ancestor(Lca(s.head, target), common) && |oldPath| - i == Number(common) - Number(Lca(s.head, target))
    {
      NumberZero(common);
      common := common.parent;
    }
    AncestorNumber(Lca(s.head, target), common);
    var finalized := ResolveFinality(cfg, s, FinalitySlot(s, s.slot));
    if Number(common) < Number(finalized.block) { return None; }
    r := PlanSwitch(s, target, SlotOf(target));
  }

  /** What a successful or refused step leaves. */
  lemma StepLeaves(cfg: Config, s: State, step: Step)
    requires ValidConfig(cfg) && Inv(s)
    ensures Inv(After(cfg, s, step))
    ensures After(cfg, s, step) == if Try(cfg, s, step).Some? then Try(cfg, s, step).value else s
    ensures !CanBuildAt(cfg, s.slot + 1) ==> Try(cfg, s, step).None?
  {
    hide Inv, CanBuildAt, ValidConfig;
    StepKeepsInv(cfg, s, step);
  }

  method PlanAddRequest(cfg: Config, s: State, t: nat, data: Bytes) returns (q: Option<Queue>)
    requires ValidConfig(cfg)
    ensures Try(cfg, s, DoAddRequest(t, data)) ==
            if q.Some? then Some(s.(queue := q.value, issued := s.issued + [Issue(t, data)])) else None
    ensures Inv(s) ==> (q.Some? <==> CanBuildAt(cfg, s.slot + 1) && Queueable(s, t, data))
    ensures Inv(s) && q.Some? ==> Queues(s.queue, q.value, t, data)
  {
    hide ValidConfig, Enqueue, ValidQueue, CanBuildAt, Inv, Queueable, Queues;
    if Inv(s) { RequestQueuesIff(cfg, s, t, data); }
    if !CanBuildAt(cfg, s.slot + 1) { return None; }
    q := Enqueue(s.queue, t, data);
    if q.Some? {
      var valid := ValidateQueue(q.value);
      if !valid { q := None; }
    }
    assert Try(cfg, s, DoAddRequest(t, data)) == NodeState.AddRequest(cfg, s, t, data);
  }

  /** The block of `MineBranch` with its record and flags. */
  method PlanMineBranch(cfg: Config, s: State, name: string, built: Built)
    returns (ok: bool, b: Block, record: Record, flags: Safety)
    requires ValidConfig(cfg)
    ensures ok ==> name in s.branches
    ensures ok ==> IsBuilt(b, s.branches[name].head, SlotOf(s.branches[name].head) + 1, Fork(name), built)
    ensures Try(cfg, s, DoMineBranch(name, built)) ==
            if !ok then None
            else
              Some(s.(stored := s.stored + {b}, safety := s.safety[b := flags], records := s.records[b := record],
                      branches := s.branches[name := s.branches[name].(head := b, tainted := flags.tainted)]))
  {
    hide ValidConfig, Prepare, ValidRecord, SafetyForChild, CanBuildAt;
    ok, b, record, flags := false, Genesis, Record(None, None, NO_CONTROLS), CLEAN;
    if !CanBuildAt(cfg, s.slot + 1) { return; }
    assert Try(cfg, s, DoMineBranch(name, built)) == NodeState.MineBranch(cfg, s, name, built);
    hide Try;
    if name !in s.branches || s.branches[name].head !in s.stored { return; }
    var parent := s.branches[name].head;
    if cfg.genesisTime + (SlotOf(parent) + 1) * cfg.slotDuration > MAX_UINT64 { return; }
    var prepared := PrepareBlock(built.native, built.numbered, built.native, EMPTY_QUEUE);
    if prepared.None? { return; }
    record := prepared.value.record;
    var valid := ValidateRecord(record);
    if !valid { return; }
    b := Child(parent, SlotOf(parent) + 1, Fork(name), built.body, built.native, prepared.value.requests);
    flags := ChildSafety(SafetyOf(s, parent), b, []);
    ok := true;
  }

  method PlanCreateBranch(cfg: Config, s: State, name: string, number: nat) returns (item: Option<BranchItem>)
    requires ValidConfig(cfg)
    ensures Try(cfg, s, DoCreateBranch(name, number)) ==
            if item.Some? then Some(s.(branches := s.branches[name := item.value])) else None
  {
    hide ValidConfig, Chain, ResolveAt, SafetyOf, CanBuildAt;
    if !CanBuildAt(cfg, s.slot + 1) { return None; }
    assert Try(cfg, s, DoCreateBranch(name, number)) == NodeState.CreateBranch(cfg, s, name, number);
    hide Try;
    if name == "" || 17 + |name| > 32 || name in s.branches || number > Number(s.head) { return None; }
    var base := Chain(s.head)[number];
    var finalized := ResolveFinality(cfg, s, FinalitySlot(s, s.slot));
    if number < Number(finalized.block) && base != s.head { return None; }
    return Some(BranchItem(base, base, SafetyOf(s, base).tainted));
  }

  lemma ResumeFrame(cfg: Config, s: State)
    requires ValidConfig(cfg) && CanBuildAt(cfg, s.slot + 1)
    ensures Try(cfg, s, DoResume) == Some(Resume(cfg, s))
    ensures var r := Resume(cfg, s);
            r == s.(paused := r.paused, finalitySlot := r.finalitySlot, published := r.published)
  {
    hide ResolveAt, TransitionEvents, CanBuildAt;
  }

  // ----- The object -----------------------------------------------------------------------------------------

  class Node {
    const cfg: Config
    var stored: set<Block>
    var head: Block
    var slot: nat
    var index: map<nat, Block>
    var disk: map<nat, Block>
    var paused: bool
    var finalitySlot: nat
    var safety: map<Block, Safety>
    var session: Safety
    var queue: Queue
    var records: Records
    var branches: map<string, BranchItem>
    var snapshots: map<nat, Point>
    var nextSnapshot: nat
    var checkpoints: map<string, Point>
    var issued: seq<Issue>
    var published: seq<Event>

    function View(): State
      reads this
    {
      State(stored, head, slot, index, disk, paused, finalitySlot, safety, session, queue, records, branches, snapshots,
            nextSnapshot, checkpoints, issued, published)
    }

    ghost predicate Valid()
      reads this
    {
      ValidConfig(cfg) && Inv(View())
    }

    constructor (cfg: Config)
      requires ValidConfig(cfg)
      ensures Valid() && View() == INITIAL && this.cfg == cfg
    {
      this.cfg := cfg;
      stored, head, slot, index, disk := {Genesis}, Genesis, 0, map[0 := Genesis], map[0 := Genesis];
      paused, finalitySlot, safety, session := false, 0, map[Genesis := CLEAN], CLEAN;
      queue, records, branches, snapshots, nextSnapshot, checkpoints := EMPTY_QUEUE, map[], map[], map[], 0, map[];
      issued, published := [], [];
      new;
      hide Inv;
      InitialInv();
    }

    method ApplyChain(next: State)
      modifies `stored, `head, `slot, `index, `disk, `paused, `finalitySlot
      ensures stored == next.stored && head == next.head && slot == next.slot
      ensures index == next.index && disk == next.disk
      ensures paused == next.paused && finalitySlot == next.finalitySlot
    {
      stored, head, slot, index, disk := next.stored, next.head, next.slot, next.index, next.disk;
      paused, finalitySlot := next.paused, next.finalitySlot;
    }

    method ApplyBookkeeping(next: State)
      modifies `safety, `session, `queue, `records, `branches, `snapshots
      ensures safety == next.safety && session == next.session && queue == next.queue && records == next.records
      ensures branches == next.branches && snapshots == next.snapshots
    {
      safety, session, queue, records := next.safety, next.session, next.queue, next.records;
      branches, snapshots := next.branches, next.snapshots;
    }

    /** The apply callback of a committed write. */
    method Apply(next: State)
      modifies this
      ensures View() == next
    {
      ApplyChain(next);
      ApplyBookkeeping(next);
      nextSnapshot, checkpoints, issued, published := next.nextSnapshot, next.checkpoints, next.issued, next.published;
    }

    // The apply callbacks of the writes that change only a few fields.

    method ApplyRequest(q: Queue, issue: Issue)
      modifies `queue, `issued
      ensures View() == old(View()).(queue := q, issued := old(issued) + [issue])
    {
      queue, issued := q, issued + [issue];
    }

    method ApplyBranch(name: string, item: BranchItem)
      modifies `branches
      ensures View() == old(View()).(branches := old(branches)[name := item])
    {
      branches := branches[name := item];
    }

    method ApplyBranchBlock(b: Block, record: Record, flags: Safety)
      modifies `stored, `safety, `records
      ensures View() == old(View()).(stored := old(stored) + {b}, safety := old(safety)[b := flags],
                                     records := old(records)[b := record])
    {
      stored, safety, records := stored + {b}, safety[b := flags], records[b := record];
    }

    method ApplyMissedSlots(count: nat, events: seq<Event>)
      modifies `slot, `published
      ensures View() == old(View()).(slot := old(slot) + count, published := old(published) + events)
    {
      slot, published := slot + count, published + events;
    }

    method AddRequest(t: nat, data: Bytes) returns (ok: bool)
      requires Valid()
      modifies `queue, `issued
      ensures Valid() && View() == After(cfg, old(View()), DoAddRequest(t, data))
      ensures ok == Try(cfg, old(View()), DoAddRequest(t, data)).Some?
      ensures ok <==> CanBuildAt(cfg, slot + 1) && Queueable(old(View()), t, data)
      ensures ok ==> Queues(old(queue), queue, t, data)
    {
      hide Inv, After, Try, CanBuildAt, Queueable, Queues;
      StepLeaves(cfg, View(), DoAddRequest(t, data));
      var q := PlanAddRequest(cfg, View(), t, data);
      ok := q.Some?;
      if ok { ApplyRequest(q.value, Issue(t, data)); }
    }

    /** `committed` says whether the block is in; `ok` whether the caller is told so, which fails when the pending view
        cannot be built for the slot after it. */
    method Mine(kind: Kind, built: Built) returns (committed: bool, ok: bool)
      requires Valid() && !kind.Fork?
      modifies this
      ensures Valid() && View() == After(cfg, old(View()), DoMine(kind, built))
      ensures committed == Try(cfg, old(View()), DoMine(kind, built)).Some?
      ensures committed ==> IsBuilt(head, old(head), old(slot) + 1, kind, built) && slot == old(slot) + 1
      ensures ok <==> committed && CanBuildAt(cfg, slot + 1)
    {
      hide Inv, NodeState.Mine, CanBuildAt, IsBuilt;
      StepKeepsInv(cfg, View(), DoMine(kind, built));
      if Try(cfg, View(), DoMine(kind, built)).Some? { MinedBlockIsBuilt(cfg, View(), kind, built); }
      if !CanBuildAt(cfg, slot + 1) { return false, false; }
      var r := PlanMine(cfg, View(), kind, built);
      if r.None? { return false, false; }
      Apply(r.value);
      return true, CanBuildAt(cfg, slot + 1);
    }

    method MineBranch(name: string, built: Built) returns (ok: bool)
      requires Valid()
      modifies `stored, `safety, `records, `branches
      ensures Valid() && View() == After(cfg, old(View()), DoMineBranch(name, built))
      ensures ok == Try(cfg, old(View()), DoMineBranch(name, built)).Some?
      ensures ok ==> name in branches && name in old(branches) &&
                     IsBuilt(branches[name].head, old(branches)[name].head, SlotOf(old(branches)[name].head) + 1,
                             Fork(name), built)
    {
      hide Inv, After, Try, CanBuildAt, IsBuilt;
      StepLeaves(cfg, View(), DoMineBranch(name, built));
      var b, record, flags;
      ok, b, record, flags := PlanMineBranch(cfg, View(), name, built);
      if ok {
        ApplyBranchBlock(b, record, flags);
        ApplyBranch(name, branches[name].(head := b, tainted := flags.tainted));
      }
    }

    method CreateBranch(name: string, number: nat) returns (ok: bool)
      requires Valid()
      modifies `branches
      ensures Valid() && View() == After(cfg, old(View()), DoCreateBranch(name, number))
      ensures ok == Try(cfg, old(View()), DoCreateBranch(name, number)).Some?
    {
      hide Inv, After, Try, CanBuildAt;
      StepLeaves(cfg, View(), DoCreateBranch(name, number));
      var item := PlanCreateBranch(cfg, View(), name, number);
      ok := item.Some?;
      if ok { ApplyBranch(name, item.value); }
    }

    method SwitchBranch(name: string) returns (ok: bool)
      requires Valid()
      modifies this
      ensures Valid() && View() == After(cfg, old(View()), DoSwitchBranch(name))
      ensures ok == Try(cfg, old(View()), DoSwitchBranch(name)).Some?
    {
      hide Inv, NodeState.SwitchBranch, CanBuildAt;
      StepKeepsInv(cfg, View(), DoSwitchBranch(name));
      if !CanBuildAt(cfg, slot + 1) { return false; }
      var r := PlanSwitchBranch(cfg, View(), name);
      if r.None? { return false; }
      Apply(r.value);
      return true;
    }

    method MissSlots(count: nat) returns (ok: bool)
      requires Valid()
      modifies `slot, `published
      ensures Valid() && View() == After(cfg, old(View()), DoMissSlots(count))
      ensures ok == Try(cfg, old(View()), DoMissSlots(count)).Some?
    {
      hide Inv, After, Try, CanBuildAt;
      StepLeaves(cfg, View(), DoMissSlots(count));
      var events;
      ok, events := PlanMissSlots(cfg, View(), count);
      if ok { ApplyMissedSlots(count, events); }
    }

    method Snapshot() returns (ok: bool)
      requires Valid()
      modifies `snapshots, `nextSnapshot
      ensures Valid() && View() == After(cfg, old(View()), DoSnapshot)
      ensures ok == Try(cfg, old(View()), DoSnapshot).Some?
    {
      hide Inv, SafetyOf, CanBuildAt;
      StepKeepsInv(cfg, View(), DoSnapshot);
      if !CanBuildAt(cfg, slot + 1) || nextSnapshot >= MAX_UINT64 { return false; }
      var point := Point(head, slot, SafetyOf(View(), head).tainted, false);
      nextSnapshot, snapshots := nextSnapshot + 1, snapshots[nextSnapshot + 1 := point];
      return true;
    }

    /** `Revert`: `found` says whether the snapshot existed and was unused; while writes are possible it never errs. */
    method Revert(id: nat) returns (found: bool)
      requires Valid()
      modifies this
      ensures Valid() && View() == After(cfg, old(View()), DoRevert(id))
      ensures found <==> CanBuildAt(cfg, old(slot) + 1) && id in old(snapshots) && !old(snapshots)[id].used
      ensures found ==> head == old(snapshots)[id].block && slot == old(snapshots)[id].slot
      ensures found ==> id in snapshots && snapshots[id].used
      ensures found ==> snapshots == old(snapshots)[id := snapshots[id]]
      ensures !found ==> View() == old(View())
    {
      hide TreeInv, IndexInv, SafetyInv, RequestInv, EventInv, TaintedChain, NodeState.SwitchCanonical, CanBuildAt;
      StepKeepsInv(cfg, View(), DoRevert(id));
      if !CanBuildAt(cfg, slot + 1) || id !in snapshots || snapshots[id].used { return false; }
      var p := snapshots[id];
      assert GoodPoint(View(), p);
      SwitchGoesThere(View(), p.block, p.slot);
      var r := PlanSwitch(View(), p.block, p.slot);
      Apply(r.value.(snapshots := snapshots[id := p.(used := true)]));
      return true;
    }

    method Checkpoint(name: string) returns (ok: bool)
      requires Valid()
      modifies `checkpoints
      ensures Valid() && View() == After(cfg, old(View()), DoCheckpoint(name))
      ensures ok == Try(cfg, old(View()), DoCheckpoint(name)).Some?
    {
      hide Inv, SafetyOf, CanBuildAt;
      StepKeepsInv(cfg, View(), DoCheckpoint(name));
      if name == "" || !CanBuildAt(cfg, slot + 1) { return false; }
      checkpoints := checkpoints[name := Point(head, slot, SafetyOf(View(), head).tainted, false)];
      return true;
    }

    /** `Restore`: while writes are possible it fails exactly when there is no such checkpoint. */
    method Restore(name: string) returns (ok: bool)
      requires Valid()
      modifies this
      ensures Valid() && View() == After(cfg, old(View()), DoRestore(name))
      ensures ok <==> CanBuildAt(cfg, old(slot) + 1) && name in old(checkpoints)
      ensures ok ==> head == old(checkpoints)[name].block && slot == old(checkpoints)[name].slot
      ensures !ok ==> View() == old(View())
    {
      hide TreeInv, IndexInv, SafetyInv, RequestInv, EventInv, TaintedChain, NodeState.SwitchCanonical, CanBuildAt;
      StepKeepsInv(cfg, View(), DoRestore(name));
      if !CanBuildAt(cfg, slot + 1) || name !in checkpoints { return false; }
      var p := checkpoints[name];
      assert GoodPoint(View(), p);
      SwitchGoesThere(View(), p.block, p.slot);
      var r := PlanSwitch(View(), p.block, p.slot);
      Apply(r.value);
      return true;
    }

    method PauseFinality()
      requires Valid()
      modifies `paused, `finalitySlot
      ensures Valid() && View() == After(cfg, old(View()), DoPause)
      ensures CanBuildAt(cfg, slot + 1) ==>
                paused && finalitySlot == if old(paused) then old(finalitySlot) else slot
    {
      hide Inv, CanBuildAt;
      StepKeepsInv(cfg, View(), DoPause);
      if !CanBuildAt(cfg, slot + 1) || paused { return; }
      paused, finalitySlot := true, slot;
    }

    method ResumeFinality()
      requires Valid()
      modifies `paused, `finalitySlot, `published
      ensures Valid() && View() == After(cfg, old(View()), DoResume)
    {
      hide Inv, Resume, After, Try, CanBuildAt;
      StepLeaves(cfg, View(), DoResume);
      if !CanBuildAt(cfg, slot + 1) { return; }
      ResumeFrame(cfg, View());
      var r := PlanResume(cfg, View());
      paused, finalitySlot, published := r.paused, r.finalitySlot, r.published;
    }
  }
}
