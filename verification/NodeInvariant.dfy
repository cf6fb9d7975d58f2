/** What every step of the node keeps. */
module NodeInvariant {
  import opened Prelude
  import opened BlockTree
  import opened RequestQueue
  import opened Reconcile
  import opened Ledger
  import opened Taint
  import opened NodeState

  /** The stored blocks form a tree with increasing slots; the clock and the frozen finality slot are in range. */
  ghost predicate TreeInv(s: State) {
    && Genesis in s.stored && s.head in s.stored
    && (forall b :: b in s.stored ==> SlotsIncrease(b) && (b.Child? ==> b.parent in s.stored))
    && SlotOf(s.head) <= s.slot
    && (if s.paused then s.finalitySlot <= s.slot else s.finalitySlot == 0)
  }

  /** The in-memory index is the slot map of the canonical chain; the persisted one never says anything else. */
  ghost predicate IndexInv(s: State) {
    && s.index == SlotMap(s.head)
    && (forall at :: at in s.disk ==> at in s.index && s.disk[at] == s.index[at])
  }

  ghost predicate SafetyInv(s: State) {
    && s.safety.Keys == s.stored
    && (forall b :: b in s.stored ==> Describes(s.safety[b], b))
    && Covers(s.session, s.stored)
  }

  /** Some block on the chain of `b` is unsafe. */
  ghost predicate TaintedChain(b: Block) {
    exists a :: Ancestor(a, b) && Unsafe(a)
  }

  ghost predicate GoodPoint(s: State, p: Point) {
    p.block in s.stored && SlotOf(p.block) <= p.slot && (p.tainted <==> TaintedChain(p.block))
  }

  ghost predicate GoodBranch(s: State, item: BranchItem) {
    && item.base in s.stored && item.head in s.stored && Ancestor(item.base, item.head)
    && (item.tainted <==> TaintedChain(item.head))
  }

  ghost predicate PointsInv(s: State) {
    && (forall n :: n in s.snapshots ==> 1 <= n <= s.nextSnapshot && GoodPoint(s, s.snapshots[n]))
    && (forall n :: n in s.checkpoints ==> GoodPoint(s, s.checkpoints[n]))
    && (forall n :: n in s.branches ==> GoodBranch(s, s.branches[n]))
  }

  predicate RecordMatches(b: Block, r: Record) {
    b.Child? && ValidRecord(r) && r.native == b.native && r.requests == b.requests
  }

  /** Every stored chain consumes a prefix of what was issued, and the queue is the rest for the canonical one. */
  ghost predicate RequestInv(s: State) {
    && WellIssued(s.issued) && QueueMatches(s.issued, s.records, s.head, s.queue)
    && (forall b :: b in s.stored ==> FollowsLedger(s.issued, s.records, b))
    && s.records.Keys == s.stored - {Genesis}
    && (forall b :: b in s.records ==> RecordMatches(b, s.records[b]))
  }

  // ----- Events ---------------------------------------------------------------------------------------------

  /** A removed event pops the tip, any other block event pushes a child of the tip. */
  function ReplayOne(chain: seq<Block>, e: Event): Option<seq<Block>> {
    if !e.BlockEvent? then Some(chain)
    else if chain == [] then None
    else
      var tip := chain[|chain| - 1];
      if e.removed then (if e.block == tip then Some(chain[..|chain| - 1]) else None)
      else if e.block.Child? && e.block.parent == tip then Some(chain + [e.block]) else None
  }

  function Replay(chain: seq<Block>, events: seq<Event>): Option<seq<Block>>
    decreases |events|
  {
    if events == [] then Some(chain)
    else var next := ReplayOne(chain, events[0]); if next.None? then None else Replay(next.value, events[1..])
  }

  ghost predicate EventInv(s: State) {
    Replay([Genesis], s.published) == Some(Chain(s.head))
  }

  ghost predicate Inv(s: State) {
    TreeInv(s) && IndexInv(s) && SafetyInv(s) && PointsInv(s) && RequestInv(s) && EventInv(s)
  }

  lemma {:induction false} ReplayConcat(chain: seq<Block>, a: seq<Event>, b: seq<Event>)
    requires Replay(chain, a).Some?
    ensures Replay(chain, a + b) == Replay(Replay(chain, a).value, b)
    decreases |a|
  {
    if a == [] {
      assert a + b == b;
    } else {
      assert (a + b)[1..] == a[1..] + b;
      ReplayConcat(ReplayOne(chain, a[0]).value, a[1..], b);
    }
  }

  predicate NoBlocks(events: seq<Event>) {
    forall i :: 0 <= i < |events| ==> !events[i].BlockEvent?
  }

  lemma {:induction false} ReplayNoBlocks(chain: seq<Block>, events: seq<Event>)
    requires NoBlocks(events)
    ensures Replay(chain, events) == Some(chain)
    decreases |events|
  {
    if events != [] { ReplayNoBlocks(chain, events[1..]); }
  }

  lemma {:induction false} ReplayRemoved(b: Block, a: Block)
    requires Ancestor(a, b)
    ensures Replay(Chain(b), RemovedEvents(Above(b, a))) == Some(Chain(a))
  {
    if a != b {
      ReplayRemoved(b.parent, a);
      var path := Above(b, a);
      assert path[1..] == Above(b.parent, a);
      assert RemovedEvents(path)[1..] == RemovedEvents(path[1..]);
      assert Chain(b)[..|Chain(b)| - 1] == Chain(b.parent);
    }
  }

  lemma {:induction false} ReplayAdded(b: Block, a: Block)
    requires Ancestor(a, b)
    ensures Replay(Chain(a), AddedEvents(Above(b, a))) == Some(Chain(b))
  {
    if a != b {
      ReplayAdded(b.parent, a);
      var path := Above(b, a);
      assert path[1..] == Above(b.parent, a);
      var last := [BlockEvent(SlotOf(b), b, false, false)];
      ReplayConcat(Chain(a), AddedEvents(path[1..]), last);
      assert Replay(Chain(b.parent), last) == Some(Chain(b)) by { assert last[1..] == []; }
    }
  }

  /** The events of a switch replay as: pop down to the lowest common ancestor, push up to the target. */
  lemma ReplaySwitch(oldHead: Block, target: Block, targetSlot: nat)
    ensures Replay(Chain(oldHead), SwitchEvents(oldHead, target, targetSlot)) == Some(Chain(target))
  {
    var c := Lca(oldHead, target);
    ReplayRemoved(oldHead, c);
    ReplayAdded(target, c);
    var removed, added := RemovedEvents(Above(oldHead, c)), AddedEvents(Above(target, c));
    var last := if oldHead == target then [] else [Reorg(targetSlot, oldHead, target, |Above(oldHead, c)|)];
    ReplayConcat(Chain(oldHead), removed, added);
    ReplayConcat(Chain(oldHead), removed + added, last);
    ReplayNoBlocks(Chain(target), last);
  }

  lemma EventsAppended(s: State, s': State, more: seq<Event>)
    requires EventInv(s) && s'.published == s.published + more && Replay(Chain(s.head), more) == Some(Chain(s'.head))
    ensures EventInv(s')
  {
    ReplayConcat([Genesis], s.published, more);
  }

  lemma {:induction false} MissedHaveNoBlocks(start: nat, count: nat)
    ensures NoBlocks(MissedEvents(start, count))
  {
    if count > 0 { MissedHaveNoBlocks(start, count - 1); }
  }

  // ----- Storing a block ------------------------------------------------------------------------------------

  lemma {:induction false} AncestorsAreStored(s: State, b: Block)
    requires TreeInv(s) && b in s.stored
    ensures forall a :: Ancestor(a, b) ==> a in s.stored
  {
    if b.Child? { AncestorsAreStored(s, b.parent); }
  }

  /** The new block's own record aside, every stored chain keeps its controls. */
  lemma ChainsKeepControls(s: State, b: Block, record: Record)
    requires TreeInv(s) && b.Child? && b.parent in s.stored
    requires b in s.stored ==> b in s.records && record == s.records[b]
    ensures forall x, t :: x in s.stored ==> Consumed(s.records[b := record], x, t) == Consumed(s.records, x, t)
  {
    var records' := s.records[b := record];
    forall x, t | x in s.stored ensures Consumed(records', x, t) == Consumed(s.records, x, t) {
      AncestorsAreStored(s, x);
      forall a | Ancestor(a, x) ensures ControlsOf(s.records, a) == ControlsOf(records', a) {}
      ConsumedFrame(s.records, records', x, t);
    }
  }

  lemma ChainsKeepFollowing(s: State, b: Block, record: Record)
    requires TreeInv(s) && RequestInv(s) && b.Child? && b.parent in s.stored
    requires b in s.stored ==> record == s.records[b]
    ensures forall x :: x in s.stored ==> FollowsLedger(s.issued, s.records[b := record], x)
  {
    ChainsKeepControls(s, b, record);
    forall x | x in s.stored ensures FollowsLedger(s.issued, s.records[b := record], x) {
      forall t | 0 <= t < CONTROL_TYPES
        ensures Consumed(s.records[b := record], x, t) <= ItemsOf(s.issued, t)
      {
        PrefixAt(s.issued, s.records, x, t);
      }
    }
  }

  lemma SafetyAfterStoring(s: State, s': State, b: Block, reasons: seq<string>)
    requires TreeInv(s) && SafetyInv(s) && b.Child? && b.parent in s.stored && Named(reasons) == OwnReasons(b)
    requires s'.stored == s.stored + {b}
    requires s'.safety == s.safety[b := SafetyForChild(SafetyOf(s, b.parent), b, reasons)]
    requires s'.session == if reasons == [] then s.session else TaintSession(s.session, s'.safety[b], reasons)
    requires reasons == [] <==> OwnReasons(b) == {}
    ensures SafetyInv(s')
  {
    hide Describes, Covers, SafetyForChild, TaintSession, OwnReasons;
    ChildIsDescribed(s.safety[b.parent], b, reasons);
    AncestorsAreStored(s, b.parent);
    assert forall a :: Ancestor(a, b) && a != b ==> Ancestor(a, b.parent);
    StoringKeepsCover(s.session, s.stored, s'.safety[b], b, reasons);
    assert s'.safety.Keys == s'.stored;
  }
}
