/** The tree of stored blocks and the structures derived from one of its tips.

A block stands for its own hash: two blocks are equal exactly when every hashed field is equal, which is
what a collision-free hash gives.  The requests list is hashed, the IDs of the controls inside it are not. */
module BlockTree {
  import opened Prelude

  /** The header's extra data: empty for mined blocks, a digest for control blocks, a name for branch blocks. */
  datatype Kind = Mined | Override(digest: nat) | Fork(name: string)

  /** What a block holds besides the fields below: its transactions by hash, and everything else. */
  datatype Payload = Payload(transactions: seq<nat>, rest: nat)

  datatype Block =
    | Genesis
    | Child(parent: Block, slot: nat, kind: Kind, body: Payload, native: RequestList, requests: RequestList)

  function Number(b: Block): nat {
    if b.Genesis? then 0 else Number(b.parent) + 1
  }

  /** A block's timestamp is `genesisTime + slot * slotDuration`, so its slot is a function of the block. */
  function SlotOf(b: Block): nat {
    if b.Genesis? then 0 else b.slot
  }

  /** The canonical chain with tip `b`, genesis first. */
  function Chain(b: Block): (c: seq<Block>)
    ensures |c| == Number(b) + 1 && c[|c| - 1] == b && c[0] == Genesis
  {
    if b.Genesis? then [b] else Chain(b.parent) + [b]
  }

  predicate Ancestor(a: Block, b: Block) {
    a == b || (b.Child? && Ancestor(a, b.parent))
  }

  /** Slots strictly increase from genesis to `b`. */
  predicate SlotsIncrease(b: Block) {
    b.Child? ==> SlotOf(b.parent) < b.slot && SlotsIncrease(b.parent)
  }

  lemma {:induction false} AncestorNumber(a: Block, b: Block)
    requires Ancestor(a, b)
    ensures Number(a) <= Number(b)
    ensures Number(a) == Number(b) ==> a == b
  {
    if a != b { AncestorNumber(a, b.parent); }
  }

  lemma {:induction false} AncestorTransitive(a: Block, b: Block, c: Block)
    requires Ancestor(a, b) && Ancestor(b, c)
    ensures Ancestor(a, c)
  {
    if b != c { AncestorTransitive(a, b, c.parent); }
  }

  lemma {:induction false} GenesisIsAncestor(b: Block)
    ensures Ancestor(Genesis, b)
  {
    if b.Child? { GenesisIsAncestor(b.parent); }
  }

  /** Two ancestors of one block lie on one line. */
  lemma {:induction false} AncestorsAreOrdered(a: Block, b: Block, c: Block)
    requires Ancestor(a, c) && Ancestor(b, c) && Number(a) <= Number(b)
    ensures Ancestor(a, b)
  {
    if b == c {
    } else if a == c {
      AncestorNumber(b, c.parent);
    } else {
      AncestorsAreOrdered(a, b, c.parent);
    }
  }

  lemma {:induction false} AncestorOnChain(a: Block, b: Block)
    ensures Ancestor(a, b) <==> a in Chain(b)
    ensures Ancestor(a, b) ==> Number(a) < |Chain(b)| && Chain(b)[Number(a)] == a
    ensures forall i :: 0 <= i < |Chain(b)| ==> Ancestor(Chain(b)[i], b) && Number(Chain(b)[i]) == i
  {
    if b.Child? {
      AncestorOnChain(a, b.parent);
      if a != b && Ancestor(a, b) { AncestorNumber(a, b.parent); }
    }
  }

  lemma {:induction false} AncestorSlot(a: Block, b: Block)
    requires Ancestor(a, b) && SlotsIncrease(b)
    ensures SlotsIncrease(a)
    ensures a != b ==> SlotOf(a) < SlotOf(b)
  {
    if a != b { AncestorSlot(a, b.parent); }
  }

  // ----- Divergent paths ------------------------------------------------------------------------------------

  /** The lowest common ancestor, reached by the three walks of `DivergentPaths`. */
  function Lca(a: Block, b: Block): (c: Block)
    ensures Ancestor(c, a) && Ancestor(c, b)
    decreases Number(a) + Number(b)
  {
    if Number(a) > Number(b) then Lca(a.parent, b)
    else if Number(b) > Number(a) then Lca(a, b.parent)
    else if a == b then a
    else NumberZero(a); NumberZero(b); Lca(a.parent, b.parent)
  }

  lemma NumberZero(b: Block)
    ensures Number(b) == 0 <==> b == Genesis
  {
  }

  /** `Lca` is the lowest: every common ancestor is an ancestor of it. */
  lemma {:induction false} LcaIsLowest(a: Block, b: Block, c: Block)
    requires Ancestor(c, a) && Ancestor(c, b)
    ensures Ancestor(c, Lca(a, b))
    decreases Number(a) + Number(b)
  {
    AncestorNumber(c, a);
    AncestorNumber(c, b);
    if Number(a) > Number(b) {
      LcaIsLowest(a.parent, b, c);
    } else if Number(b) > Number(a) {
      LcaIsLowest(a, b.parent, c);
    } else if a != b {
      NumberZero(a);
      NumberZero(b);
      LcaIsLowest(a.parent, b.parent, c);
    }
  }

  /** The blocks of `b`'s chain above its ancestor `a`, tip first. */
  function Above(b: Block, a: Block): (p: seq<Block>)
    requires Ancestor(a, b)
    ensures |p| == Number(b) - Number(a)
  {
    if a == b then [] else [b] + Above(b.parent, a)
  }

  lemma {:induction false} AboveMembers(b: Block, a: Block, x: Block)
    requires Ancestor(a, b)
    ensures x in Above(b, a) <==> Ancestor(x, b) && !Ancestor(x, a)
  {
    if a != b {
      AboveMembers(b.parent, a, x);
      if x == b && Ancestor(b, a) { AncestorNumber(b, a); AncestorNumber(a, b); }
    }
  }

  lemma {:induction false} AboveSplit(b: Block, m: Block, a: Block)
    requires Ancestor(a, m) && Ancestor(m, b)
    ensures Ancestor(a, b) && Above(b, a) == Above(b, m) + Above(m, a)
  {
    AncestorTransitive(a, m, b);
    if m == b {
      assert Above(b, a) == [] + Above(m, a);
    } else {
      if a == b { AncestorNumber(a, m); AncestorNumber(m, b.parent); }
      AboveSplit(b.parent, m, a);
      assert Above(b, a) == [b] + Above(b.parent, a) && Above(b, m) == [b] + Above(b.parent, m);
      assert [b] + (Above(b.parent, m) + Above(m, a)) == [b] + Above(b.parent, m) + Above(m, a);
    }
  }

  /** `divergentPaths`: walk both tips down to the same height, then down together until they meet. */
  method DivergentPaths(oldHead: Block, newHead: Block) returns (oldPath: seq<Block>, newPath: seq<Block>)
    ensures oldPath == Above(oldHead, Lca(oldHead, newHead))
    ensures newPath == Above(newHead, Lca(oldHead, newHead))
  {
    var oldBlock, newBlock := oldHead, newHead;
    ghost var meet := Lca(oldHead, newHead);
    oldPath, newPath := [], [];
    while Number(oldBlock) > Number(newBlock)
      invariant Ancestor(oldBlock, oldHead) && Lca(oldBlock, newBlock) == meet
      invariant oldPath == Above(oldHead, oldBlock)
      decreases Number(oldBlock)
    {
      StepDown(oldHead, oldBlock);
      oldPath := oldPath + [oldBlock];
      oldBlock := oldBlock.parent;
    }
    while Number(newBlock) > Number(oldBlock)
      invariant Number(oldBlock) <= Number(newBlock)
      invariant Ancestor(newBlock, newHead) && Lca(oldBlock, newBlock) == meet
      invariant newPath == Above(newHead, newBlock)
      decreases Number(newBlock)
    {
      StepDown(newHead, newBlock);
      newPath := newPath + [newBlock];
      newBlock := newBlock.parent;
    }
    while oldBlock != newBlock
      invariant Number(oldBlock) == Number(newBlock) && Lca(oldBlock, newBlock) == meet
      invariant Ancestor(oldBlock, oldHead) && Ancestor(newBlock, newHead)
      invariant oldPath == Above(oldHead, oldBlock) && newPath == Above(newHead, newBlock)
      decreases Number(oldBlock)
    {
      NumberZero(oldBlock);
      NumberZero(newBlock);
      StepDown(oldHead, oldBlock);
      StepDown(newHead, newBlock);
      oldPath, newPath := oldPath + [oldBlock], newPath + [newBlock];
      oldBlock, newBlock := oldBlock.parent, newBlock.parent;
    }
  }

  lemma StepDown(tip: Block, b: Block)
    requires Ancestor(b, tip) && b.Child?
    ensures Ancestor(b.parent, tip) && Above(tip, b.parent) == Above(tip, b) + [b]
  {
  }

  // ----- The slot index -------------------------------------------------------------------------------------

  /** The slot-to-block map of the chain with tip `b`, recomputed from the chain. */
  function SlotMap(b: Block): map<nat, Block> {
    if b.Genesis? then map[0 := Genesis] else SlotMap(b.parent)[b.slot := b]
  }

  lemma {:induction false} SlotMapMeaning(b: Block)
    requires SlotsIncrease(b)
    ensures forall s :: s in SlotMap(b) ==> Ancestor(SlotMap(b)[s], b) && SlotOf(SlotMap(b)[s]) == s && s <= SlotOf(b)
    ensures forall a :: Ancestor(a, b) ==> SlotOf(a) in SlotMap(b) && SlotMap(b)[SlotOf(a)] == a
  {
    if b.Child? { SlotMapMeaning(b.parent); }
  }

  /** `switchCanonical` keeps an entry when its slot is not past the target and its block is not removed. */
  function Kept(index: map<nat, Block>, removed: seq<Block>, targetSlot: nat): map<nat, Block> {
    map s | s in index && s <= targetSlot && index[s] !in removed :: index[s]
  }

  /** The entries `switchCanonical` deletes, in memory and in the journaled batch. */
  function Dropped(index: map<nat, Block>, removed: seq<Block>, targetSlot: nat): set<nat> {
    set s | s in index && (s > targetSlot || index[s] in removed)
  }

  /** The index after entering a tip-first path, lowest block first. */
  function Entered(index: map<nat, Block>, added: seq<Block>): map<nat, Block> {
    if added == [] then index else Entered(index, added[1..])[SlotOf(added[0]) := added[0]]
  }

  function SlotsOf(path: seq<Block>): set<nat> {
    set i | 0 <= i < |path| :: SlotOf(path[i])
  }

  lemma {:induction false} KeptIsAncestorMap(b: Block, a: Block, targetSlot: nat)
    requires Ancestor(a, b) && SlotsIncrease(b) && SlotOf(a) <= targetSlot
    ensures Kept(SlotMap(b), Above(b, a), targetSlot) == SlotMap(a)
  {
    SlotMapMeaning(b);
    if a != b {
      KeptIsAncestorMap(b.parent, a, targetSlot);
      SlotMapMeaning(b.parent);
      forall s | s in SlotMap(b.parent) ensures SlotMap(b.parent)[s] != b {
        AncestorNumber(SlotMap(b.parent)[s], b.parent);
      }
    }
  }

  lemma {:induction false} EnteredIsTipMap(b: Block, a: Block)
    requires Ancestor(a, b)
    ensures Entered(SlotMap(a), Above(b, a)) == SlotMap(b)
  {
    if a != b { EnteredIsTipMap(b.parent, a); }
  }

  /** The incrementally edited index is the one recomputed from the new chain. */
  lemma {:induction false} EditedIndexIsExact(oldHead: Block, target: Block, targetSlot: nat)
    requires SlotsIncrease(oldHead) && SlotsIncrease(target) && SlotOf(target) <= targetSlot
    ensures var c := Lca(oldHead, target);
            Entered(Kept(SlotMap(oldHead), Above(oldHead, c), targetSlot), Above(target, c)) == SlotMap(target)
  {
    var c := Lca(oldHead, target);
    AncestorSlot(c, target);
    KeptIsAncestorMap(oldHead, c, targetSlot);
    EnteredIsTipMap(target, c);
  }

  // ----- Looking a slot up ----------------------------------------------------------------------------------

  /** `blockAtOrBeforeSlot` by the index: downward from `slot` to the first entry on the canonical chain. */
  function BlockAtOrBefore(index: map<nat, Block>, head: Block, slot: nat): Block {
    if slot in index && Ancestor(index[slot], head) then index[slot]
    else if slot == 0 then Genesis
    else BlockAtOrBefore(index, head, slot - 1)
  }

  /** `beaconAncestorRootAtSlot` by parents: down from the tip to the first block not past `slot`. */
  function ParentWalk(b: Block, slot: nat): (a: Block)
    ensures Ancestor(a, b) && SlotOf(a) <= slot
  {
    if SlotOf(b) <= slot then b else ParentWalk(b.parent, slot)
  }

  /** The walk stops at the latest ancestor at or before the slot. */
  lemma {:induction false} ParentWalkIsLatest(b: Block, slot: nat, a: Block)
    requires SlotsIncrease(b) && Ancestor(a, b) && SlotOf(a) <= slot
    ensures Ancestor(a, ParentWalk(b, slot))
  {
    if SlotOf(b) > slot { ParentWalkIsLatest(b.parent, slot, a); }
  }

  lemma {:induction false} ParentWalkMonotone(b: Block, low: nat, high: nat)
    requires SlotsIncrease(b) && low <= high
    ensures Ancestor(ParentWalk(b, low), ParentWalk(b, high))
  {
    ParentWalkIsLatest(b, high, ParentWalk(b, low));
  }

  /** The index lookup and the parent walk agree at every slot. */
  lemma {:induction false} LookupIsParentWalk(b: Block, slot: nat)
    requires SlotsIncrease(b)
    ensures BlockAtOrBefore(SlotMap(b), b, slot) == ParentWalk(b, slot)
  {
    SlotMapMeaning(b);
    GenesisIsAncestor(b);
    var w := ParentWalk(b, slot);
    if slot in SlotMap(b) {
      var a := SlotMap(b)[slot];
      ParentWalkIsLatest(b, slot, a);
      if a != w { AncestorSlot(w, b); AncestorSlot(a, w); }
    } else {
      assert SlotOf(w) != slot;
      LookupIsParentWalk(b, slot - 1);
      var v := ParentWalk(b, slot - 1);
      ParentWalkMonotone(b, slot - 1, slot);
      ParentWalkIsLatest(b, slot - 1, w);
      AncestorNumber(v, w);
      AncestorNumber(w, v);
    }
  }

  method LookUpSlot(index: map<nat, Block>, head: Block, slot: nat) returns (b: Block)
    ensures b == BlockAtOrBefore(index, head, slot)
    ensures index == SlotMap(head) && SlotsIncrease(head) ==> b == ParentWalk(head, slot)
  {
    if SlotsIncrease(head) { LookupIsParentWalk(head, slot); }
    var at: nat := slot;
    while true
      invariant at <= slot && BlockAtOrBefore(index, head, at) == BlockAtOrBefore(index, head, slot)
      decreases at
    {
      if at in index && Ancestor(index[at], head) { return index[at]; }
      if at == 0 { return Genesis; }
      at := at - 1;
    }
  }

  method WalkToSlot(tip: Block, slot: nat) returns (b: Block)
    ensures b == ParentWalk(tip, slot)
  {
    b := tip;
    while SlotOf(b) > slot
      invariant ParentWalk(b, slot) == ParentWalk(tip, slot)
      decreases b
    {
      b := b.parent;
    }
  }
}
