/** The persisted slot index across switches, and what the startup checks accept. */
module NodeRestart {
  import opened Prelude
  import opened BlockTree
  import opened RequestQueue
  import opened Reconcile
  import opened Ledger
  import opened Taint
  import opened NodeState
  import opened NodeInvariant
  import opened NodeSteps

  // ----- Slots lost on disk ---------------------------------------------------------------------------------

  /** Canonical slots missing from the persisted index. */
  function Lost(s: State): set<nat> {
    s.index.Keys - s.disk.Keys
  }

  lemma NothingLost(s: State)
    requires IndexInv(s)
    ensures Lost(s) == {} <==> s.disk == s.index
  {
    if Lost(s) == {} {
      assert forall at :: at in s.index ==> at in s.disk by {
        forall at | at in s.index ensures at in s.disk { assert at !in Lost(s); }
      }
    }
  }

  lemma DroppedAreOldSlots(oldHead: Block, c: Block, targetSlot: nat)
    requires SlotsIncrease(oldHead) && Ancestor(c, oldHead) && SlotOf(c) <= targetSlot
    ensures Dropped(SlotMap(oldHead), Above(oldHead, c), targetSlot) == SlotsOf(Above(oldHead, c))
    ensures SlotMap(c).Keys == SlotMap(oldHead).Keys - SlotsOf(Above(oldHead, c))
  {
    var index, path := SlotMap(oldHead), Above(oldHead, c);
    SlotMapMeaning(oldHead);
    KeptIsAncestorMap(oldHead, c, targetSlot);
    SlotMapMeaning(c) by { AncestorSlot(c, oldHead); }
    forall at | at in Dropped(index, path, targetSlot) ensures at in SlotsOf(path) {
      assert at !in SlotMap(c);
      var b := index[at];
      AboveMembers(oldHead, c, b);
      var i :| 0 <= i < |path| && path[i] == b;
      assert SlotOf(path[i]) == at;
    }
    forall at | at in SlotsOf(path) ensures at in Dropped(index, path, targetSlot) {
      var i :| 0 <= i < |path| && SlotOf(path[i]) == at;
      AboveMembers(oldHead, c, path[i]);
      assert index[at] == path[i];
    }
    assert forall at :: at in index ==> (at in SlotMap(c) <==> at !in Dropped(index, path, targetSlot));
  }

  lemma LostKeys(oldHead: Block, target: Block, targetSlot: nat, disk: map<nat, Block>)
    requires SlotsIncrease(oldHead) && SlotsIncrease(target) && SlotOf(target) <= targetSlot
    requires disk.Keys <= SlotMap(oldHead).Keys
    ensures var c := Lca(oldHead, target);
            var removed, added := Above(oldHead, c), Above(target, c);
            var disk' := Entered(disk, added) - Dropped(SlotMap(oldHead), removed, targetSlot);
            SlotMap(target).Keys - disk'.Keys ==
            SlotsOf(removed) * SlotsOf(added) + (SlotMap(oldHead).Keys - disk.Keys - SlotsOf(removed) - SlotsOf(added))
  {
    hide Entered, Dropped, SlotsOf, SlotMap, Lca, Above;
    var c := Lca(oldHead, target);
    AncestorSlot(c, target);
    DroppedAreOldSlots(oldHead, c, targetSlot);
    EnteredIsTipMap(target, c);
    EnteredKeys(disk, Above(target, c));
    EnteredKeys(SlotMap(c), Above(target, c));
    DroppedAreEntries(oldHead, Above(oldHead, c), targetSlot);
  }

  lemma DroppedAreEntries(oldHead: Block, path: seq<Block>, targetSlot: nat)
    ensures Dropped(SlotMap(oldHead), path, targetSlot) <= SlotMap(oldHead).Keys
  {
  }

  /** What a switch does to the persisted index. */
  lemma SwitchedDisk(s: State, target: Block, targetSlot: nat)
    requires SwitchCanonical(s, target, targetSlot).Some? && (s.head != target || s.slot != targetSlot)
    ensures var c := Lca(s.head, target);
            var s' := SwitchCanonical(s, target, targetSlot).value;
            s'.head == target &&
            s'.disk == Entered(s.disk, Above(target, c)) - Dropped(s.index, Above(s.head, c), targetSlot)
  {
  }

  /** The exact effect of a switch on the persisted index: slots used by both paths are lost, and slots of either path
      that were lost before are not lost any more. */
  lemma SwitchLosesSharedSlots(s: State, target: Block, targetSlot: nat)
    requires Inv(s) && target in s.stored && SlotOf(target) <= targetSlot
    ensures SwitchCanonical(s, target, targetSlot).Some?
    ensures var c := Lca(s.head, target);
            var removed, added := SlotsOf(Above(s.head, c)), SlotsOf(Above(target, c));
            Lost(SwitchCanonical(s, target, targetSlot).value) == removed * added + (Lost(s) - removed - added)
  {
    hide SwitchCanonical, SafetyInv, PointsInv, RequestInv, EventInv, Entered, Dropped, SlotsOf, SlotMap;
    SwitchKeepsInv(s, target, targetSlot);
    if s.head != target || s.slot != targetSlot {
      SwitchedDisk(s, target, targetSlot);
      LostKeys(s.head, target, targetSlot, s.disk);
    } else {
      SwitchToSelf(s);
    }
  }

  lemma SwitchToSelf(s: State)
    ensures SwitchCanonical(s, s.head, s.slot) == Some(s)
    ensures SlotsOf(Above(s.head, Lca(s.head, s.head))) == {}
  {
  }

  lemma EnteredKeys(m: map<nat, Block>, path: seq<Block>)
    ensures Entered(m, path).Keys == m.Keys + SlotsOf(path)
  {
  }

  /** From an intact persisted index, a switch keeps it intact exactly when the removed and the added path use disjoint
      slots. */
  lemma SwitchKeepsDiskIffDisjoint(s: State, target: Block, targetSlot: nat)
    requires Inv(s) && s.disk == s.index && target in s.stored && SlotOf(target) <= targetSlot
    ensures SwitchCanonical(s, target, targetSlot).Some?
    ensures var c := Lca(s.head, target);
            var s' := SwitchCanonical(s, target, targetSlot).value;
            s'.disk == s'.index <==> SlotsOf(Above(s.head, c)) !! SlotsOf(Above(target, c))
  {
    hide SwitchCanonical, Lca, SlotsOf, TreeInv, IndexInv, SafetyInv, PointsInv, RequestInv, EventInv, Lost;
    SwitchLosesSharedSlots(s, target, targetSlot);
    SwitchKeepsInv(s, target, targetSlot);
    NothingLost(s);
    NothingLost(SwitchCanonical(s, target, targetSlot).value);
  }

  // ----- The startup checks ---------------------------------------------------------------------------------

  /** `validateControlMetadata` accepts what every run stores. */
  lemma ControlMetadataIsAccepted(s: State)
    requires Inv(s)
    ensures ControlMetadataValid(Reloaded(s))
  {
    hide IndexInv, RequestInv, EventInv, Describes, Covers;
    forall n | n in s.checkpoints
      ensures var p := s.checkpoints[n];
              && p.block in s.stored && SlotOf(p.block) <= p.slot && p.block in s.safety
              && s.safety[p.block].tainted == p.tainted
    {
      assert GoodPoint(s, s.checkpoints[n]);
      TaintFlag(s, s.checkpoints[n].block);
    }
    forall n | n in s.branches
      ensures var item := s.branches[n];
              && item.base in s.stored && item.head in s.stored && Ancestor(item.base, item.head)
              && (forall b :: b in Above(item.head, item.base) ==>
                    b in s.stored && b.Child? && SlotOf(b.parent) < SlotOf(b))
              && item.head in s.safety && s.safety[item.head].tainted == item.tainted
    {
      var item := s.branches[n];
      assert GoodBranch(s, item);
      TaintFlag(s, item.head);
      AncestorsAreStored(s, item.head);
      forall b | b in Above(item.head, item.base) ensures b in s.stored && b.Child? && SlotOf(b.parent) < SlotOf(b) {
        AboveMembers(item.head, item.base, b);
        GenesisIsAncestor(item.base);
        AncestorSlot(b, item.head);
      }
    }
  }

  lemma {:induction false} RecordedIsConsumed(records: Records, b: Block, a: Block, t: nat, x: Queued)
    requires Ancestor(a, b) && a.Child? && x in ControlsOf(records, a).Of(t)
    ensures x in Consumed(records, b, t)
  {
    if a != b { RecordedIsConsumed(records, b.parent, a, t, x); }
  }

  lemma ConsumedIsOnLedger(s: State, b: Block, t: nat, x: Queued)
    requires FollowsLedger(s.issued, s.records, b) && t < CONTROL_TYPES && x in Consumed(s.records, b, t)
    ensures OnLedger(s.issued, t, x)
  {
    hide OnLedger, ItemsOf, Consumed;
    ItemsAreOnLedger(s.issued, t);
    PrefixAt(s.issued, s.records, b, t);
    var i :| 0 <= i < |Consumed(s.records, b, t)| && Consumed(s.records, b, t)[i] == x;
    assert ItemsOf(s.issued, t)[i] == x;
  }

  lemma PendingIsOnLedger(s: State, t: nat, x: Queued)
    requires QueueMatches(s.issued, s.records, s.head, s.queue) && t < CONTROL_TYPES && x in s.queue.Of(t)
    ensures OnLedger(s.issued, t, x)
  {
    hide OnLedger, FollowsLedger, Rest;
    RestIsOnLedger(s.issued, s.records, s.head);
    assert AllOnLedger(s.issued, t, s.queue.Of(t));
  }

  /** Everything held anywhere is on the ledger. */
  lemma HeldIsOnLedger(s: State, place: Option<Block>, t: nat, x: Queued)
    requires RequestInv(s) && Holds(s, place, t, x)
    ensures OnLedger(s.issued, t, x)
  {
    hide OnLedger, FollowsLedger, QueueMatches, WellIssued, Consumed, RecordMatches;
    if place.Some? {
      RecordedIsConsumed(s.records, place.value, place.value, t, x);
      ConsumedIsOnLedger(s, place.value, t, x);
    } else {
      PendingIsOnLedger(s, t, x);
    }
  }

  lemma EarlierInPrefix(all: seq<Queued>, before: seq<Queued>, own: seq<Queued>, x: Queued, y: Queued)
    requires Increasing(all) && before + own <= all && x in before && y in own
    ensures x.id < y.id
  {
    var i :| 0 <= i < |before| && before[i] == x;
    var j :| 0 <= j < |own| && own[j] == y;
    assert all[i] == (before + own)[i] == x && all[|before| + j] == (before + own)[|before| + j] == y;
  }

  /** A control of a lower block on a chain was issued before a control of a higher one. */
  lemma RecordedInOrder(s: State, b: Block, c: Block, t: nat, x: Queued, y: Queued)
    requires RequestInv(s) && c in s.stored && c.Child? && Ancestor(b, c.parent) && b.Child? && t < CONTROL_TYPES
    requires x in ControlsOf(s.records, b).Of(t) && y in ControlsOf(s.records, c).Of(t)
    ensures x.id < y.id
  {
    hide ItemsOf, OnLedger, RecordMatches, ControlsOf, Increasing, QueueMatches, FollowsLedger, WellIssued;
    RecordedIsConsumed(s.records, c.parent, b, t, x);
    PrefixAt(s.issued, s.records, c, t);
    ItemsAreOnLedger(s.issued, t);
    EarlierInPrefix(ItemsOf(s.issued, t), Consumed(s.records, c.parent, t), ControlsOf(s.records, c).Of(t), x, y);
  }

  lemma ConsumedBeforePending(s: State, b: Block, t: nat, x: Queued, y: Queued)
    requires RequestInv(s) && Ancestor(b, s.head) && b.Child? && t < CONTROL_TYPES
    requires x in ControlsOf(s.records, b).Of(t) && y in s.queue.Of(t)
    ensures x.id < y.id
  {
    hide ItemsOf, OnLedger, RecordMatches, ControlsOf, Increasing, FollowsLedger, WellIssued, Consumed;
    RecordedIsConsumed(s.records, s.head, b, t, x);
    PrefixAt(s.issued, s.records, s.head, t);
    ItemsAreOnLedger(s.issued, t);
    EarlierInPrefix(ItemsOf(s.issued, t), Consumed(s.records, s.head, t), s.queue.Of(t), x, y);
  }

  /** Two live holders of one ID are one holder. */
  lemma LiveHoldersAreOne(s: State, p: Option<Block>, q: Option<Block>, t: nat, x: Queued, y: Queued)
    requires RequestInv(s) && s.head in s.stored && Holds(s, p, t, x) && Holds(s, q, t, y) && x.id == y.id
    requires Live(s, p) && Live(s, q) && (forall a :: Ancestor(a, s.head) ==> a in s.stored)
    ensures p == q
  {
    hide RequestInv, Consumed;
    if p.None? && q.Some? {
      HolderIsChild(s, q.value, t, y);
      ConsumedBeforePending(s, q.value, t, y, x);
    } else if p.Some? && q.None? {
      HolderIsChild(s, p.value, t, x);
      ConsumedBeforePending(s, p.value, t, x, y);
    } else if p.Some? && q.Some? && p != q {
      var b, c := p.value, q.value;
      HolderIsChild(s, b, t, x);
      HolderIsChild(s, c, t, y);
      if Number(b) <= Number(c) {
        AncestorsAreOrdered(b, c, s.head);
        RecordedInOrder(s, b, c, t, x, y);
      } else {
        AncestorsAreOrdered(c, b, s.head);
        RecordedInOrder(s, c, b, t, y, x);
      }
    }
  }

  lemma HolderIsChild(s: State, b: Block, t: nat, x: Queued)
    requires RequestInv(s) && Holds(s, Some(b), t, x)
    ensures b.Child? && x in ControlsOf(s.records, b).Of(t)
  {
  }

  lemma QueueIsValid(s: State)
    requires RequestInv(s)
    ensures ValidQueue(s.queue) && s.queue.nextID == |s.issued| + 1
  {
    hide ValidQueue, FollowsLedger, RecordMatches, ValidControls, ControlsOnLedger, Rest, Increasing;
    RestIsOnLedger(s.issued, s.records, s.head);
    LedgerControlsAreValid(s.issued, Rest(s.issued, s.records, s.head));
  }

  lemma HoldersAgree(s: State, p: Option<Block>, t: nat, x: Queued, q: Option<Block>, u: nat, y: Queued)
    requires TreeInv(s) && RequestInv(s) && Holds(s, p, t, x) && Holds(s, q, u, y) && x.id == y.id
    ensures t == u && x.data == y.data && (Live(s, p) && Live(s, q) ==> p == q)
  {
    hide RequestInv, Holds, Live;
    HeldIsOnLedger(s, p, t, x);
    HeldIsOnLedger(s, q, u, y);
    if Live(s, p) && Live(s, q) {
      AncestorsAreStored(s, s.head);
      LiveHoldersAreOne(s, p, q, t, x, y);
    }
  }

  lemma HoldsIgnoresReload(s: State, p: Option<Block>, t: nat, x: Queued)
    ensures Holds(Reloaded(s), p, t, x) <==> Holds(s, p, t, x)
    ensures Live(Reloaded(s), p) <==> Live(s, p)
  {
  }

  /** `validateExecutionRequestMetadata` accepts what every run stores. */
  lemma RequestMetadataIsAccepted(s: State)
    requires Inv(s)
    ensures RequestMetadataValid(Reloaded(s))
  {
    hide TreeInv, IndexInv, SafetyInv, PointsInv, EventInv, ValidRecord, ValidQueue, Live, Holds, FollowsLedger,
         QueueMatches;
    var r := Reloaded(s);
    QueueIsValid(s);
    forall p, t, x | Holds(r, p, t, x) ensures 0 < x.id < s.queue.nextID {
      HoldsIgnoresReload(s, p, t, x);
      HeldIsOnLedger(s, p, t, x);
    }
    forall p, t, x, q, u, y | Holds(r, p, t, x) && Holds(r, q, u, y) && x.id == y.id
      ensures t == u && x.data == y.data && (Live(r, p) && Live(r, q) ==> p == q)
    {
      HoldsIgnoresReload(s, p, t, x);
      HoldsIgnoresReload(s, q, u, y);
      HoldersAgree(s, p, t, x, q, u, y);
    }
  }

  /** The safety checks of `validateRuntimeMetadata` accept every reachable state; its slot-index checks accept exactly
      the states whose persisted index is intact. */
  lemma RuntimeMetadataAcceptedIffIntact(s: State)
    requires Inv(s)
    ensures RuntimeMetadataValid(Reloaded(s)) <==> s.disk == s.index
  {
    hide RequestInv, PointsInv, EventInv;
    var r := Reloaded(s);
    SafetyChecksPass(s);
    SlotMapMeaning(s.head);
    AncestorsAreStored(s, s.head);
    forall b ensures b in Chain(s.head) <==> Ancestor(b, s.head) { AncestorOnChain(b, s.head); }
    if RuntimeMetadataValid(r) {
      forall at | at in s.index ensures at in s.disk {
        assert s.index[at] in Chain(s.head);
      }
    }
    hide Describes, Covers;
  }

  lemma SafetyChecksPass(s: State)
    requires TreeInv(s) && SafetyInv(s)
    ensures forall b :: b in s.stored ==>
              (s.safety[b].tainted ==> s.safety[b].firstUnsafe.Some? && s.safety[b].reasons <= s.session.reasons)
    ensures if s.session.tainted then
              s.session.firstUnsafe.Some? && s.session.firstUnsafe.value in s.safety &&
              s.safety[s.session.firstUnsafe.value].tainted
            else forall b :: b in s.safety ==> !s.safety[b].tainted
  {
    forall b | b in s.stored
      ensures s.safety[b].reasons <= s.session.reasons
      ensures s.safety[b].tainted ==> s.safety[b].firstUnsafe.Some? && s.session.tainted
    {
      assert Describes(s.safety[b], b);
      AncestorsAreStored(s, b);
      forall r | r in s.safety[b].reasons ensures r in s.session.reasons {
        var a :| Ancestor(a, b) && r in OwnReasons(a);
        assert a in s.stored;
      }
    }
    if s.session.tainted {
      var u := s.session.firstUnsafe.value;
      assert Describes(s.safety[u], u) && Ancestor(u, u);
    }
  }

  /** A restart succeeds exactly when no slot was lost on disk and the next slot can be built, and then nothing but the
      snapshots is forgotten. */
  lemma RestartSucceedsIffIntact(cfg: Config, s: State)
    requires ValidConfig(cfg) && Inv(s)
    ensures Restart(cfg, s).Some? <==> s.disk == s.index && CanBuildAt(cfg, s.slot + 1)
    ensures Restart(cfg, s).Some? ==>
              Inv(Restart(cfg, s).value) && Restart(cfg, s).value == s.(snapshots := map[], nextSnapshot := 0)
  {
    hide RuntimeMetadataValid, ControlMetadataValid, RequestMetadataValid, IndexInv, SafetyInv, RequestInv, EventInv,
         CanBuildAt;
    RuntimeMetadataAcceptedIffIntact(s);
    ControlMetadataIsAccepted(s);
    RequestMetadataIsAccepted(s);
    if Restart(cfg, s).Some? {
      var s' := Restart(cfg, s).value;
      assert s'.published == s.published + [];
      assert PointsInv(s');
      QuietStep(s, s', []);
    }
  }
}
