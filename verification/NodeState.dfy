/** The node as a sequential state machine: one function per write the controller performs.

A step that returns an error leaves the node as it was, which the functions say with `None`. */
module NodeState {
  import opened Prelude
  import opened BlockTree
  import opened RequestQueue
  import opened Reconcile
  import opened Ledger
  import opened Taint

  datatype Config = Config(slotsPerEpoch: nat, genesisTime: nat, slotDuration: nat)

  /** The guards of `validateResolved` that the steps rely on. */
  predicate ValidConfig(cfg: Config) {
    0 < cfg.slotsPerEpoch <= MAX_UINT64 / 2 && 0 < cfg.slotDuration && cfg.genesisTime <= MAX_UINT64
  }

  datatype Event =
    | BlockEvent(slot: nat, block: Block, removed: bool, control: bool)
    | Reorg(slot: nat, oldHead: Block, newHead: Block, depth: nat)
    | MissedSlot(slot: nat)
    | FinalizedCheckpoint(slot: nat, block: Block)

  /** A snapshot or checkpoint. */
  datatype Point = Point(block: Block, slot: nat, tainted: bool, used: bool)

  datatype BranchItem = BranchItem(base: Block, head: Block, tainted: bool)

  /** The node's memory. Everything but `index` equals what is persisted; `disk` is the persisted slot index. `issued`
      and `published` are histories: the requests ever queued and the events ever published. */
  datatype State = State(
    stored: set<Block>, head: Block, slot: nat, index: map<nat, Block>, disk: map<nat, Block>,
    paused: bool, finalitySlot: nat, safety: map<Block, Safety>, session: Safety,
    queue: Queue, records: Records, branches: map<string, BranchItem>,
    snapshots: map<nat, Point>, nextSnapshot: nat, checkpoints: map<string, Point>,
    issued: seq<Issue>, published: seq<Event>)

  const INITIAL := State(
    {Genesis}, Genesis, 0, map[0 := Genesis], map[0 := Genesis], false, 0, map[Genesis := CLEAN], CLEAN,
    EMPTY_QUEUE, map[], map[], map[], 0, map[], [], [])

  /** A Go map read: a missing entry is the zero value. */
  function SafetyOf(s: State, b: Block): Safety {
    if b in s.safety then s.safety[b] else CLEAN
  }

  // ----- Finality -------------------------------------------------------------------------------------------

  datatype Resolution = Resolution(slot: nat, block: Block)

  function SubtractSlots(slot: nat, lag: nat): nat {
    if slot <= lag then 0 else slot - lag
  }

  /** `syntheticFinalitySlot`. */
  function FinalitySlot(s: State, headSlot: nat): nat {
    if s.paused && s.finalitySlot < headSlot then s.finalitySlot else headSlot
  }

  /** The finalized half of `resolveSyntheticFinalityAt`: two epochs behind, by the slot index. */
  function ResolveAt(cfg: Config, s: State, headSlot: nat): Resolution {
    var slot := SubtractSlots(headSlot, 2 * cfg.slotsPerEpoch);
    Resolution(slot, BlockAtOrBefore(s.index, s.head, slot))
  }

  function Resolve(cfg: Config, s: State, headSlot: nat): Resolution {
    ResolveAt(cfg, s, FinalitySlot(s, headSlot))
  }

  /** What the node currently reports as finalized. */
  function Finalized(cfg: Config, s: State): Resolution {
    Resolve(cfg, s, s.slot)
  }

  predicate SameCheckpoint(cfg: Config, a: Resolution, b: Resolution)
    requires cfg.slotsPerEpoch > 0
  {
    a.block == b.block && a.slot / cfg.slotsPerEpoch == b.slot / cfg.slotsPerEpoch
  }

  /** `finalizedEventForTransition`. */
  function TransitionEvents(cfg: Config, previous: Resolution, next: Resolution): seq<Event>
    requires cfg.slotsPerEpoch > 0
  {
    if SameCheckpoint(cfg, previous, next) then [] else [FinalizedCheckpoint(next.slot, next.block)]
  }

  function FinalizedBetween(cfg: Config, s: State, fromSlot: nat, toSlot: nat): seq<Event>
    requires cfg.slotsPerEpoch > 0
  {
    TransitionEvents(cfg, Resolve(cfg, s, fromSlot), Resolve(cfg, s, toSlot))
  }

  function Pause(s: State): State {
    if s.paused then s else s.(paused := true, finalitySlot := s.slot)
  }

  function Resume(cfg: Config, s: State): State
    requires cfg.slotsPerEpoch > 0
  {
    if !s.paused then s
    else
      var from := Min(s.slot, s.finalitySlot);
      s.(paused := false, finalitySlot := 0,
         published := s.published + TransitionEvents(cfg, ResolveAt(cfg, s, from), ResolveAt(cfg, s, s.slot)))
  }

  // ----- Slots ----------------------------------------------------------------------------------------------

  /** A block can be built for the slot: slot and timestamp fit in 64 bits. */
  predicate CanBuildAt(cfg: Config, slot: nat)
    requires ValidConfig(cfg)
  {
    slot <= MAX_UINT64 && slot <= (MAX_UINT64 - cfg.genesisTime) / cfg.slotDuration
  }

  function MissedEvents(start: nat, count: nat): seq<Event> {
    if count == 0 then [] else MissedEvents(start, count - 1) + [MissedSlot(start + count)]
  }

  function MissSlots(cfg: Config, s: State, count: nat): Option<State>
    requires ValidConfig(cfg)
  {
    if count == 0 then Some(s)
    else if !CanBuildAt(cfg, s.slot + count + 1) then None
    else
      var to := s.slot + count;
      Some(s.(slot := to,
              published := s.published + MissedEvents(s.slot, count) + FinalizedBetween(cfg, s, s.slot, to)))
  }

  // ----- Blocks ---------------------------------------------------------------------------------------------

  function UnsafeReasons(kind: Kind, controlled: bool): seq<string> {
    (if kind.Override? then [STATE_OVERRIDE] else []) + (if controlled then [REQUEST_CONTROL] else [])
  }

  /** What the block builder returns besides the requests: the header's slot-number flag and everything else hashed,
      with the native requests of the execution. */
  datatype Built = Built(numbered: bool, body: Payload, native: RequestList)

  function NewBlock(s: State, kind: Kind, built: Built, p: Prepared): Block {
    Child(s.head, s.slot + 1, kind, built.body, built.native, p.requests)
  }

  /** `mineExecutionBlock` and `applyControl`: a child of the head at the next slot, filled from the queue. */
  function Mine(cfg: Config, s: State, kind: Kind, built: Built): Option<State>
    requires ValidConfig(cfg)
  {
    var prepared := Prepare(built.native, built.numbered, built.native, s.queue);
    if !CanBuildAt(cfg, s.slot + 1) || prepared.None? then None
    else
      var p := prepared.value;
      if !ValidRecord(p.record) || (p.controlled && !ValidQueue(p.remaining)) then None
      else
        var b := NewBlock(s, kind, built, p);
        var reasons := UnsafeReasons(kind, p.controlled);
        var safety := SafetyForChild(SafetyOf(s, s.head), b, reasons);
        Some(s.(stored := s.stored + {b}, head := b, slot := b.slot,
                index := s.index[b.slot := b], disk := s.disk[b.slot := b],
                safety := s.safety[b := safety],
                session := if reasons == [] then s.session else TaintSession(s.session, safety, reasons),
                queue := p.remaining, records := s.records[b := p.record],
                published := s.published + [BlockEvent(b.slot, b, false, kind.Override?)] +
                             FinalizedBetween(cfg, s, s.slot, b.slot)))
  }

  /** One block of `MineBranch`: a child of the branch head, never filled from the queue. */
  function MineBranch(cfg: Config, s: State, name: string, built: Built): Option<State>
    requires ValidConfig(cfg)
  {
    if name !in s.branches || s.branches[name].head !in s.stored then None
    else
      var item := s.branches[name];
      var parent := item.head;
      var prepared := Prepare(built.native, built.numbered, built.native, EMPTY_QUEUE);
      if cfg.genesisTime + (SlotOf(parent) + 1) * cfg.slotDuration > MAX_UINT64 || prepared.None? then None
      else
        var p := prepared.value;
        if !ValidRecord(p.record) then None
        else
          var b := Child(parent, SlotOf(parent) + 1, Fork(name), built.body, built.native, p.requests);
          var safety := SafetyForChild(SafetyOf(s, parent), b, []);
          Some(s.(stored := s.stored + {b}, safety := s.safety[b := safety], records := s.records[b := p.record],
                  branches := s.branches[name := item.(head := b, tainted := safety.tainted)]))
  }

  /** `CreateBranch`; `ethertest-branch:` and the name must fit the 32 bytes of extra data. */
  function CreateBranch(cfg: Config, s: State, name: string, number: nat): Option<State> {
    if name == "" || 17 + |name| > 32 || name in s.branches || number > Number(s.head) then None
    else
      var base := Chain(s.head)[number];
      if number < Number(Finalized(cfg, s).block) && base != s.head then None
      else Some(s.(branches := s.branches[name := BranchItem(base, base, SafetyOf(s, base).tainted)]))
  }

  // ----- Canonical switches ---------------------------------------------------------------------------------

  function RemovedEvents(path: seq<Block>): seq<Event> {
    if path == [] then [] else [BlockEvent(SlotOf(path[0]), path[0], true, false)] + RemovedEvents(path[1..])
  }

  /** Published lowest block first. */
  function AddedEvents(path: seq<Block>): seq<Event> {
    if path == [] then [] else AddedEvents(path[1..]) + [BlockEvent(SlotOf(path[0]), path[0], false, false)]
  }

  function SwitchEvents(oldHead: Block, target: Block, targetSlot: nat): seq<Event> {
    var c := Lca(oldHead, target);
    var oldPath, newPath := Above(oldHead, c), Above(target, c);
    RemovedEvents(oldPath) + AddedEvents(newPath) +
    if oldHead == target then [] else [Reorg(targetSlot, oldHead, target, |oldPath|)]
  }

  /** What a switch writes. The journaled batch applies its deletes after its puts, so on disk a slot used by both paths
      is lost; the in-memory copy is edited the other way round. */
  function Switched(s: State, target: Block, targetSlot: nat, queue: Queue): State {
    var c := Lca(s.head, target);
    var oldPath, newPath := Above(s.head, c), Above(target, c);
    s.(head := target, slot := targetSlot, queue := queue,
       finalitySlot := if s.paused then Min(s.finalitySlot, targetSlot) else s.finalitySlot,
       index := Entered(Kept(s.index, oldPath, targetSlot), newPath),
       disk := Entered(s.disk, newPath) - Dropped(s.index, oldPath, targetSlot),
       published := s.published + SwitchEvents(s.head, target, targetSlot))
  }

  /** `switchCanonical`. */
  ghost function SwitchCanonical(s: State, target: Block, targetSlot: nat): Option<State> {
    if s.head == target && s.slot == targetSlot then Some(s)
    else
      var c := Lca(s.head, target);
      var queue := Reconciled(s.records, s.queue, Above(s.head, c), Above(target, c));
      if queue.None? || !ValidQueue(queue.value) then None
      else Some(Switched(s, target, targetSlot, queue.value))
  }

  ghost function SwitchBranch(cfg: Config, s: State, name: string): Option<State> {
    if name !in s.branches || s.branches[name].head !in s.stored then None
    else
      var target := s.branches[name].head;
      if Number(Lca(s.head, target)) < Number(Finalized(cfg, s).block) then None
      else SwitchCanonical(s, target, SlotOf(target))
  }

  function HeadPoint(s: State): Point {
    Point(s.head, s.slot, SafetyOf(s, s.head).tainted, false)
  }

  function Snapshot(s: State): Option<State> {
    if s.nextSnapshot >= MAX_UINT64 then None
    else Some(s.(nextSnapshot := s.nextSnapshot + 1, snapshots := s.snapshots[s.nextSnapshot + 1 := HeadPoint(s)]))
  }

  /** `Revert`: an unknown or used snapshot is reported, not an error. */
  ghost function Revert(s: State, id: nat): Option<State> {
    if id !in s.snapshots || s.snapshots[id].used then Some(s)
    else if s.snapshots[id].block !in s.stored then None
    else
      var switched := SwitchCanonical(s, s.snapshots[id].block, s.snapshots[id].slot);
      if switched.None? then None
      else Some(switched.value.(snapshots := s.snapshots[id := s.snapshots[id].(used := true)]))
  }

  function Checkpoint(s: State, name: string): Option<State> {
    if name == "" then None else Some(s.(checkpoints := s.checkpoints[name := HeadPoint(s)]))
  }

  ghost function Restore(s: State, name: string): Option<State> {
    if name !in s.checkpoints || s.checkpoints[name].block !in s.stored then None
    else SwitchCanonical(s, s.checkpoints[name].block, s.checkpoints[name].slot)
  }

  // ----- Requests -------------------------------------------------------------------------------------------

  function AddRequest(cfg: Config, s: State, t: nat, data: Bytes): Option<State>
    requires ValidConfig(cfg)
  {
    var proposed := Enqueue(s.queue, t, data);
    if proposed.None? || !CanBuildAt(cfg, s.slot + 1) || !ValidQueue(proposed.value) then None
    else Some(s.(queue := proposed.value, issued := s.issued + [Issue(t, data)]))
  }

  // ----- Restart --------------------------------------------------------------------------------------------

  /** `validateRuntimeMetadata` on the loaded metadata. */
  ghost predicate RuntimeMetadataValid(s: State) {
    && (if s.paused then s.finalitySlot <= s.slot else s.finalitySlot == 0)
    && s.head in s.stored && SlotOf(s.head) <= s.slot
    && (forall b :: b in s.stored ==>
          && b in s.safety
          && (s.safety[b].tainted ==> s.safety[b].firstUnsafe.Some? && s.safety[b].reasons <= s.session.reasons))
    && (forall at :: at in s.index ==>
          s.index[at] in s.stored && Ancestor(s.index[at], s.head) && SlotOf(s.index[at]) == at)
    && (forall b :: b in Chain(s.head) ==> b in s.stored && SlotOf(b) in s.index && s.index[SlotOf(b)] == b)
    && (if s.session.tainted then
          s.session.firstUnsafe.Some? && s.session.firstUnsafe.value in s.safety &&
          s.safety[s.session.firstUnsafe.value].tainted
        else forall b :: b in s.safety ==> !s.safety[b].tainted)
  }

  /** `validateControlMetadata` on the loaded checkpoints and branches. */
  ghost predicate ControlMetadataValid(s: State) {
    && (forall n :: n in s.checkpoints ==>
          var p := s.checkpoints[n];
          && p.block in s.stored && SlotOf(p.block) <= p.slot && p.block in s.safety
          && s.safety[p.block].tainted == p.tainted)
    && (forall n :: n in s.branches ==>
          var item := s.branches[n];
          && item.base in s.stored && item.head in s.stored && Ancestor(item.base, item.head)
          && (forall b :: b in Above(item.head, item.base) ==>
                b in s.stored && b.Child? && SlotOf(b.parent) < SlotOf(b))
          && item.head in s.safety && s.safety[item.head].tainted == item.tainted)
  }

  /** A control held by the queue (`None`) or by the record of a stored block. */
  predicate Holds(s: State, place: Option<Block>, t: nat, x: Queued) {
    t < CONTROL_TYPES &&
    if place.None? then x in s.queue.Of(t)
    else place.value in s.stored && place.value in s.records && x in s.records[place.value].controls.Of(t)
  }

  predicate Live(s: State, place: Option<Block>) {
    place.None? || Ancestor(place.value, s.head)
  }

  /** `validateExecutionRequestMetadata` on the loaded queue and records: records match their blocks, an ID has one
      value everywhere and stays below the next ID, and the queue and the canonical blocks share no ID. */
  ghost predicate RequestMetadataValid(s: State) {
    && ValidQueue(s.queue)
    && (forall b :: b in s.stored && b.Child? ==>
          && b in s.records && ValidRecord(s.records[b])
          && s.records[b].native == b.native && s.records[b].requests == b.requests)
    && (forall p, t, x :: Holds(s, p, t, x) ==> 0 < x.id < s.queue.nextID)
    && (forall p, t, x, q, u, y :: (Holds(s, p, t, x) && Holds(s, q, u, y) && x.id == y.id) ==>
          (t == u && x.data == y.data && (Live(s, p) && Live(s, q) ==> p == q)))
  }

  /** What a restart loads: snapshots live in memory only, and the slot index comes back from disk. */
  function Reloaded(s: State): State {
    s.(index := s.disk, snapshots := map[], nextSnapshot := 0)
  }

  /** A restart; `None` when a startup check refuses the metadata, or when the pending view cannot be built for the next
      slot. */
  ghost function Restart(cfg: Config, s: State): Option<State>
    requires ValidConfig(cfg)
  {
    var loaded := Reloaded(s);
    if && RuntimeMetadataValid(loaded) && RequestMetadataValid(loaded) && ControlMetadataValid(loaded)
       && CanBuildAt(cfg, s.slot + 1)
    then Some(loaded)
    else None
  }

  // ----- Runs -----------------------------------------------------------------------------------------------

  datatype Step =
    | DoAddRequest(t: nat, data: Bytes)
    | DoMine(kind: Kind, built: Built)
    | DoMineBranch(name: string, built: Built)
    | DoCreateBranch(name: string, number: nat)
    | DoSwitchBranch(name: string)
    | DoMissSlots(count: nat)
    | DoSnapshot
    | DoRevert(id: nat)
    | DoCheckpoint(name: string)
    | DoRestore(name: string)
    | DoPause
    | DoResume
    | DoRestart

  /** One write, or a restart. When no block can be built for the next slot the pending view cannot be rebuilt either:
      the write that got there has disabled all later ones, and startup refuses. */
  ghost function Try(cfg: Config, s: State, step: Step): Option<State>
    requires ValidConfig(cfg)
  {
    if !CanBuildAt(cfg, s.slot + 1) then None else
    match step
    case DoAddRequest(t, data) => AddRequest(cfg, s, t, data)
    case DoMine(kind, built) => if kind.Fork? then None else Mine(cfg, s, kind, built)
    case DoMineBranch(name, built) => MineBranch(cfg, s, name, built)
    case DoCreateBranch(name, number) => CreateBranch(cfg, s, name, number)
    case DoSwitchBranch(name) => SwitchBranch(cfg, s, name)
    case DoMissSlots(count) => MissSlots(cfg, s, count)
    case DoSnapshot => Snapshot(s)
    case DoRevert(id) => Revert(s, id)
    case DoCheckpoint(name) => Checkpoint(s, name)
    case DoRestore(name) => Restore(s, name)
    case DoPause => Some(Pause(s))
    case DoResume => Some(Resume(cfg, s))
    case DoRestart => Restart(cfg, s)
  }

  ghost function After(cfg: Config, s: State, step: Step): State
    requires ValidConfig(cfg)
  {
    var r := Try(cfg, s, step);
    if r.Some? then r.value else s
  }

  ghost function Run(cfg: Config, s: State, steps: seq<Step>): State
    requires ValidConfig(cfg)
    decreases |steps|
  {
    if steps == [] then s else Run(cfg, After(cfg, s, steps[0]), steps[1..])
  }
}
