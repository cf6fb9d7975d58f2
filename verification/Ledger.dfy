/** The issue ledger: where every control ID is, on every stored chain. */
module Ledger {
  import opened Prelude
  import opened BlockTree
  import opened RequestCodec
  import opened RequestQueue
  import opened Reconcile

  /** What was queued under one ID; entry `i` of the ledger was issued ID `i + 1`. */
  datatype Issue = Issue(kind: nat, data: Bytes)

  predicate WellIssued(issued: seq<Issue>) {
    forall i :: 0 <= i < |issued| ==> issued[i].kind < CONTROL_TYPES && |issued[i].data| == Size(issued[i].kind)
  }

  /** Everything ever issued of one type, in ID order. */
  function ItemsOf(issued: seq<Issue>, t: nat): seq<Queued> {
    if issued == [] then []
    else
      var last := |issued| - 1;
      ItemsOf(issued[..last], t) + if issued[last].kind == t then [Queued(last + 1, issued[last].data)] else []
  }

  predicate OnLedger(issued: seq<Issue>, t: nat, item: Queued) {
    1 <= item.id <= |issued| && issued[item.id - 1] == Issue(t, item.data)
  }

  lemma {:induction false} ItemsAreOnLedger(issued: seq<Issue>, t: nat)
    ensures forall i :: 0 <= i < |ItemsOf(issued, t)| ==> OnLedger(issued, t, ItemsOf(issued, t)[i])
    ensures Increasing(ItemsOf(issued, t))
  {
    if issued != [] { ItemsAreOnLedger(issued[..|issued| - 1], t); }
  }

  lemma ItemsAfterIssue(issued: seq<Issue>, x: Issue, t: nat)
    ensures ItemsOf(issued + [x], t) ==
            ItemsOf(issued, t) + if x.kind == t then [Queued(|issued| + 1, x.data)] else []
  {
  }

  // ----- Controls consumed along a chain --------------------------------------------------------------------

  /** The controls of one type recorded from genesis to `b`, in chain order. */
  function Consumed(records: Records, b: Block, t: nat): seq<Queued> {
    if b.Genesis? then [] else Consumed(records, b.parent, t) + ControlsOf(records, b).Of(t)
  }

  /** The controls of one type recorded along a tip-first path, lowest block first. */
  function PathItems(records: Records, path: seq<Block>, t: nat): seq<Queued> {
    if path == [] then [] else PathItems(records, path[1..], t) + ControlsOf(records, path[0]).Of(t)
  }

  lemma {:induction false} ConsumedSplits(records: Records, b: Block, a: Block, t: nat)
    requires Ancestor(a, b)
    ensures Consumed(records, b, t) == Consumed(records, a, t) + PathItems(records, Above(b, a), t)
  {
    hide ControlsOf, Consumed;
    if a == b {
      assert Consumed(records, a, t) + [] == Consumed(records, a, t);
    } else {
      ConsumedSplits(records, b.parent, a, t);
      ConsumedAtTop(records, b, t);
      var path := Above(b, a);
      assert path[0] == b && path[1..] == Above(b.parent, a);
      assert PathItems(records, path, t) == PathItems(records, path[1..], t) + ControlsOf(records, b).Of(t);
    }
  }

  /** Records off the chain of `b` do not matter to it. */
  lemma {:induction false} ConsumedFrame(records: Records, records': Records, b: Block, t: nat)
    requires forall a :: Ancestor(a, b) ==> ControlsOf(records, a) == ControlsOf(records', a)
    ensures Consumed(records, b, t) == Consumed(records', b, t)
  {
    if b.Child? { ConsumedFrame(records, records', b.parent, t); }
  }

  // ----- Running the pools ----------------------------------------------------------------------------------

  lemma IdsConcat(a: seq<Queued>, b: seq<Queued>)
    ensures Ids(a + b) == Ids(a) + Ids(b)
  {
    forall x | x in Ids(a) + Ids(b) ensures x in Ids(a + b) {
      if x in Ids(a) {
        var i :| 0 <= i < |a| && a[i].id == x;
        assert (a + b)[i].id == x;
      } else {
        var i :| 0 <= i < |b| && b[i].id == x;
        assert (a + b)[|a| + i].id == x;
      }
    }
  }

  /** Everything the pools hold agrees with the ledger, and nothing taken is still available. */
  predicate Honest(issued: seq<Issue>, p: Pools) {
    && (forall i :: i in p.known ==> OnLedger(issued, p.known[i].kind, Queued(i, p.known[i].data)))
    && (forall k :: k in p.available ==> p.available[k].id == k.1 && OnLedger(issued, k.0, p.available[k]))
    && (forall k :: k in p.available ==> k.1 !in p.consumed)
  }

  predicate AllOnLedger(issued: seq<Issue>, t: nat, items: seq<Queued>) {
    forall i :: 0 <= i < |items| ==> OnLedger(issued, t, items[i])
  }

  /** The IDs available for a type. */
  function Held(p: Pools, t: nat): set<nat> {
    IdsOfType(p.available, t)
  }

  lemma AddStep(issued: seq<Issue>, p: Pools, t: nat, item: Queued) returns (q: Pools)
    requires Honest(issued, p) && OnLedger(issued, t, item) && item.id !in p.consumed
    ensures AddOne(p, (t, item)) == Some(q) && Honest(issued, q) && q.consumed == p.consumed
    ensures Held(q, t) == Held(p, t) + {item.id}
    ensures forall u :: u != t ==> Held(q, u) == Held(p, u)
  {
    q := AddOne(p, (t, item)).value;
    forall i | i in Held(p, t) + {item.id} ensures i in Held(q, t) { assert (t, i) in q.available; }
    forall u | u != t ensures Held(q, u) == Held(p, u) {
      forall i | i in Held(p, u) ensures i in Held(q, u) { assert (u, i) in q.available; }
      forall i | i in Held(q, u) ensures i in Held(p, u) { assert (u, i) in p.available; }
    }
  }

  lemma TakeStep(issued: seq<Issue>, p: Pools, t: nat, item: Queued) returns (q: Pools)
    requires Honest(issued, p) && OnLedger(issued, t, item) && item.id in Held(p, t)
    ensures TakeOne(p, (t, item)) == Some(q) && Honest(issued, q)
    ensures Held(q, t) == Held(p, t) - {item.id}
    ensures forall u :: u != t ==> Held(q, u) == Held(p, u)
  {
    assert (t, item.id) in p.available;
    q := TakeOne(p, (t, item)).value;
    forall i | i in Held(p, t) - {item.id} ensures i in Held(q, t) { assert (t, i) in q.available; }
    forall u | u != t ensures Held(q, u) == Held(p, u) {
      forall i | i in Held(p, u) ensures i in Held(q, u) { assert (u, i) in q.available; }
    }
    forall k | k in q.available ensures k.1 !in q.consumed {
      assert k in p.available;
      assert k.1 == item.id ==> k == (t, item.id);
    }
  }

  lemma IdsCons(items: seq<Queued>)
    requires items != []
    ensures Ids(items) == {items[0].id} + Ids(items[1..])
  {
  }

  lemma {:induction false} AddRun(issued: seq<Issue>, p: Pools, t: nat, items: seq<Queued>) returns (p': Pools)
    requires Honest(issued, p) && AllOnLedger(issued, t, items) && p.consumed == {}
    ensures AddAll(p, Tag(t, items)) == Some(p') && Honest(issued, p') && p'.consumed == {}
    ensures Held(p', t) == Held(p, t) + Ids(items)
    ensures forall u :: u != t ==> Held(p', u) == Held(p, u)
    decreases |items|
  {
    hide Honest, Held, AddOne, Ids;
    if items == [] {
      p' := p;
      assert Ids(items) == {} by { IdsOfNone(); }
    } else {
      var q := AddStep(issued, p, t, items[0]);
      p' := AddRun(issued, q, t, items[1..]);
      IdsCons(items);
      assert Tag(t, items)[1..] == Tag(t, items[1..]);
    }
  }

  lemma IdsOfNone()
    ensures Ids([]) == {}
  {
  }

  /** Taking a run of the held items leaves the ones after it. */
  lemma {:induction false} TakeRun(issued: seq<Issue>, p: Pools, t: nat, items: seq<Queued>, rest: seq<Queued>)
    returns (p': Pools)
    requires Honest(issued, p) && AllOnLedger(issued, t, items) && Increasing(items + rest)
    requires Held(p, t) == Ids(items + rest)
    ensures TakeAll(p, Tag(t, items)) == Some(p') && Honest(issued, p')
    ensures Held(p', t) == Ids(rest)
    ensures forall u :: u != t ==> Held(p', u) == Held(p, u)
    decreases |items|
  {
    hide Honest, Held, TakeOne;
    if items == [] {
      p' := p;
      assert items + rest == rest;
    } else {
      var all := items + rest;
      assert all[0] == items[0] && all[1..] == items[1..] + rest;
      IdsCons(all);
      var q := TakeStep(issued, p, t, items[0]);
      assert items[0].id !in Ids(all[1..]);
      p' := TakeRun(issued, q, t, items[1..], rest);
      assert Tag(t, items)[1..] == Tag(t, items[1..]);
    }
  }

  predicate ControlsOnLedger(issued: seq<Issue>, c: ControlSet) {
    forall t :: 0 <= t < CONTROL_TYPES ==> AllOnLedger(issued, t, c.Of(t))
  }

  /** Adding a whole control set. */
  lemma AddSet(issued: seq<Issue>, p: Pools, c: ControlSet) returns (p': Pools)
    requires Honest(issued, p) && ControlsOnLedger(issued, c) && p.consumed == {}
    ensures AddAll(p, Flatten(c)) == Some(p') && Honest(issued, p') && p'.consumed == {}
    ensures forall t :: 0 <= t < CONTROL_TYPES ==> Held(p', t) == Held(p, t) + Ids(c.Of(t))
  {
    hide Honest, Held, AddAll, Ids, Tag;
    assert AllOnLedger(issued, 0, c.Of(0)) && AllOnLedger(issued, 1, c.Of(1)) && AllOnLedger(issued, 2, c.Of(2));
    var p0 := AddRun(issued, p, 0, c.Of(0));
    var p1 := AddRun(issued, p0, 1, c.Of(1));
    p' := AddRun(issued, p1, 2, c.Of(2));
    AddAllSplit(p, Tag(0, c.Of(0)), Tag(1, c.Of(1)));
    AddAllSplit(p, Tag(0, c.Of(0)) + Tag(1, c.Of(1)), Tag(2, c.Of(2)));
  }

  /** Taking a whole control set, when each list heads what is held of its type. */
  lemma TakeSet(issued: seq<Issue>, p: Pools, c: ControlSet, rest: ControlSet) returns (p': Pools)
    requires Honest(issued, p) && ControlsOnLedger(issued, c)
    requires forall t :: 0 <= t < CONTROL_TYPES ==>
               Increasing(c.Of(t) + rest.Of(t)) && Held(p, t) == Ids(c.Of(t) + rest.Of(t))
    ensures TakeAll(p, Flatten(c)) == Some(p') && Honest(issued, p')
    ensures forall t :: 0 <= t < CONTROL_TYPES ==> Held(p', t) == Ids(rest.Of(t))
  {
    hide Honest, Held, TakeAll, Ids, Tag, Increasing;
    assert AllOnLedger(issued, 0, c.Of(0)) && AllOnLedger(issued, 1, c.Of(1)) && AllOnLedger(issued, 2, c.Of(2));
    var p0 := TakeRun(issued, p, 0, c.Of(0), rest.Of(0));
    var p1 := TakeRun(issued, p0, 1, c.Of(1), rest.Of(1));
    p' := TakeRun(issued, p1, 2, c.Of(2), rest.Of(2));
    TakeAllSplit(p, Tag(0, c.Of(0)), Tag(1, c.Of(1)));
    TakeAllSplit(p, Tag(0, c.Of(0)) + Tag(1, c.Of(1)), Tag(2, c.Of(2)));
  }

  // ----- Reconciliation ---------------------------------------------------------------------------------------

  /** The chain of `b` consumes a prefix of the ledger, type by type. */
  predicate FollowsLedger(issued: seq<Issue>, records: Records, b: Block) {
    forall t :: 0 <= t < CONTROL_TYPES ==> Consumed(records, b, t) <= ItemsOf(issued, t)
  }

  /** What the chain of `b` has not consumed. */
  function Rest(issued: seq<Issue>, records: Records, b: Block): (c: ControlSet)
    requires FollowsLedger(issued, records, b)
    ensures forall t :: 0 <= t < CONTROL_TYPES ==> c.Of(t) == ItemsOf(issued, t)[|Consumed(records, b, t)|..]
  {
    assert Consumed(records, b, 0) <= ItemsOf(issued, 0) && Consumed(records, b, 1) <= ItemsOf(issued, 1) &&
           Consumed(records, b, 2) <= ItemsOf(issued, 2);
    ControlSet(ItemsOf(issued, 0)[|Consumed(records, b, 0)|..], ItemsOf(issued, 1)[|Consumed(records, b, 1)|..],
               ItemsOf(issued, 2)[|Consumed(records, b, 2)|..])
  }

  /** After a shorter prefix comes the rest of the longer one, then what follows it. */
  lemma SliceAfter<T>(all: seq<T>, short: seq<T>, more: seq<T>)
    requires short + more <= all
    ensures short <= all && all[|short|..] == more + all[|short + more|..]
    ensures forall i :: 0 <= i < |more| ==> more[i] == all[|short| + i]
  {
  }

  lemma RestOfParentAt(issued: seq<Issue>, records: Records, b: Block, t: nat)
    requires b.Child? && Consumed(records, b, t) <= ItemsOf(issued, t)
    ensures Consumed(records, b.parent, t) <= ItemsOf(issued, t)
    ensures AllOnLedger(issued, t, ControlsOf(records, b).Of(t))
    ensures ItemsOf(issued, t)[|Consumed(records, b.parent, t)|..] ==
            ControlsOf(records, b).Of(t) + ItemsOf(issued, t)[|Consumed(records, b, t)|..]
    ensures Increasing(ItemsOf(issued, t))
  {
    hide ItemsOf, OnLedger, ControlsOf;
    ItemsAreOnLedger(issued, t);
    SliceAfter(ItemsOf(issued, t), Consumed(records, b.parent, t), ControlsOf(records, b).Of(t));
  }

  /** One block down: the parent's rest is the block's controls followed by the block's rest. */
  lemma RestOfParent(issued: seq<Issue>, records: Records, b: Block)
    requires b.Child? && FollowsLedger(issued, records, b)
    ensures FollowsLedger(issued, records, b.parent)
    ensures ControlsOnLedger(issued, ControlsOf(records, b))
    ensures forall t :: 0 <= t < CONTROL_TYPES ==>
              Rest(issued, records, b.parent).Of(t) == ControlsOf(records, b).Of(t) + Rest(issued, records, b).Of(t)
    ensures forall t :: 0 <= t < CONTROL_TYPES ==> Increasing(Rest(issued, records, b.parent).Of(t))
  {
    hide ItemsOf, ControlsOf, Consumed, Rest, AllOnLedger;
    forall t | 0 <= t < CONTROL_TYPES
      ensures Consumed(records, b.parent, t) <= ItemsOf(issued, t)
      ensures AllOnLedger(issued, t, ControlsOf(records, b).Of(t))
      ensures ItemsOf(issued, t)[|Consumed(records, b.parent, t)|..] ==
              ControlsOf(records, b).Of(t) + ItemsOf(issued, t)[|Consumed(records, b, t)|..]
      ensures Increasing(ItemsOf(issued, t))
    {
      RestOfParentAt(issued, records, b, t);
    }
  }

  lemma {:induction false} FollowsLedgerBelow(issued: seq<Issue>, records: Records, b: Block, a: Block)
    requires FollowsLedger(issued, records, b) && Ancestor(a, b)
    ensures FollowsLedger(issued, records, a)
  {
    if a != b {
      RestOfParent(issued, records, b);
      FollowsLedgerBelow(issued, records, b.parent, a);
    }
  }

  lemma {:induction false} AddPath(issued: seq<Issue>, records: Records, p: Pools, b: Block,
                                   a: Block) returns (p': Pools)
    requires Honest(issued, p) && p.consumed == {} && Ancestor(a, b) && FollowsLedger(issued, records, b)
    ensures AddAll(p, FlattenPath(records, Above(b, a))) == Some(p') && Honest(issued, p') && p'.consumed == {}
    ensures forall t :: 0 <= t < CONTROL_TYPES ==> Held(p', t) == Held(p, t) + Ids(PathItems(records, Above(b, a), t))
  {
    hide Honest, Held, Ids, FollowsLedger, Flatten, Rest, ControlsOf;
    if a == b {
      p' := p;
      IdsOfNone();
    } else {
      RestOfParent(issued, records, b);
      var q := AddPath(issued, records, p, b.parent, a);
      p' := AddSet(issued, q, ControlsOf(records, b));
      var path := Above(b, a);
      assert path[1..] == Above(b.parent, a) && path[0] == b;
      AddAllSplit(p, FlattenPath(records, path[1..]), Flatten(ControlsOf(records, b)));
      forall t | 0 <= t < CONTROL_TYPES
        ensures Held(p', t) == Held(p, t) + Ids(PathItems(records, path, t))
      {
        IdsConcat(PathItems(records, path[1..], t), ControlsOf(records, b).Of(t));
      }
    }
  }

  lemma {:induction false} TakePath(issued: seq<Issue>, records: Records, p: Pools, b: Block,
                                    a: Block) returns (p': Pools)
    requires Honest(issued, p) && Ancestor(a, b)
    requires FollowsLedger(issued, records, b) && FollowsLedger(issued, records, a)
    requires forall t :: 0 <= t < CONTROL_TYPES ==> Held(p, t) == Ids(Rest(issued, records, a).Of(t))
    ensures TakeAll(p, FlattenPath(records, Above(b, a))) == Some(p') && Honest(issued, p')
    ensures forall t :: 0 <= t < CONTROL_TYPES ==> Held(p', t) == Ids(Rest(issued, records, b).Of(t))
  {
    hide Honest, Held, Ids, FollowsLedger, Flatten, Rest, ControlsOf, Increasing;
    if a == b {
      p' := p;
    } else {
      RestOfParent(issued, records, b);
      var q := TakePath(issued, records, p, b.parent, a);
      p' := TakeSet(issued, q, ControlsOf(records, b), Rest(issued, records, b));
      var path := Above(b, a);
      assert path[1..] == Above(b.parent, a) && path[0] == b;
      TakeAllSplit(p, FlattenPath(records, path[1..]), Flatten(ControlsOf(records, b)));
    }
  }

  function IdList(items: seq<Queued>): seq<nat> {
    seq(|items|, i requires 0 <= i < |items| => items[i].id)
  }

  lemma IdListOfHeld(items: seq<Queued>, s: set<nat>)
    requires Increasing(items) && s == Ids(items)
    ensures Ascending(s) == IdList(items)
  {
    var ids := IdList(items);
    forall x ensures x in s <==> x in ids {
      if x in s {
        var i :| 0 <= i < |items| && items[i].id == x;
        assert ids[i] == x;
      }
    }
    AscendingIsUnique(s, ids);
  }

  /** Sorting what is held of a type restores ledger order. */
  lemma SortedIsLedgerOrder(issued: seq<Issue>, p: Pools, t: nat, items: seq<Queued>)
    requires Honest(issued, p) && AllOnLedger(issued, t, items) && Increasing(items) && Held(p, t) == Ids(items)
    ensures Sorted(p.available, t) == items
  {
    hide Ascending, IdsOfType, Increasing, Ids;
    var s := IdsOfType(p.available, t);
    IdListOfHeld(items, s);
    AscendingListsType(p.available, t, s);
    var sorted := Sorted(p.available, t);
    assert |sorted| == |items|;
    forall i | 0 <= i < |items| ensures sorted[i] == items[i] {
      var k := (t, IdList(items)[i]);
      assert k in p.available && sorted[i] == p.available[k];
      assert OnLedger(issued, t, items[i]) && OnLedger(issued, t, sorted[i]);
    }
  }

  lemma LedgerControlsAreValid(issued: seq<Issue>, c: ControlSet)
    requires WellIssued(issued) && ControlsOnLedger(issued, c)
    requires forall t :: 0 <= t < CONTROL_TYPES ==> Increasing(c.Of(t))
    ensures ValidControls(c) && ValidQueue(Queue(|issued| + 1, c))
  {
    forall t | 0 <= t < CONTROL_TYPES ensures WellSized(t, c.Of(t)) {
      assert AllOnLedger(issued, t, c.Of(t));
    }
    forall t, u | 0 <= t < u < CONTROL_TYPES ensures Disjoint(c.Of(t), c.Of(u)) {
      assert AllOnLedger(issued, t, c.Of(t)) && AllOnLedger(issued, u, c.Of(u));
    }
    forall t, i | 0 <= t < CONTROL_TYPES && 0 <= i < |c.Of(t)| ensures c.Of(t)[i].id < |issued| + 1 {
      assert OnLedger(issued, t, c.Of(t)[i]);
    }
  }

  lemma RestIsOnLedger(issued: seq<Issue>, records: Records, b: Block)
    requires FollowsLedger(issued, records, b)
    ensures ControlsOnLedger(issued, Rest(issued, records, b))
    ensures forall t :: 0 <= t < CONTROL_TYPES ==> Increasing(Rest(issued, records, b).Of(t))
  {
    forall t | 0 <= t < CONTROL_TYPES
      ensures AllOnLedger(issued, t, Rest(issued, records, b).Of(t)) && Increasing(Rest(issued, records, b).Of(t))
    {
      ItemsAreOnLedger(issued, t);
    }
  }

  /** The queue holds exactly what the chain of `head` has not consumed, in ledger order. */
  predicate QueueMatches(issued: seq<Issue>, records: Records, head: Block, q: Queue) {
    FollowsLedger(issued, records, head) && q == Queue(|issued| + 1, Rest(issued, records, head))
  }

  /** Between any two chains that follow the ledger, reconciliation takes no error branch and the new queue is exactly
      what the new chain has not consumed, in the order it was issued. */
  lemma ReconcileIsExact(issued: seq<Issue>, records: Records, q: Queue, head: Block, target: Block)
    requires WellIssued(issued) && QueueMatches(issued, records, head, q) && FollowsLedger(issued, records, target)
    requires forall b :: b in records ==> ValidRecord(records[b])
    ensures var c := Lca(head, target);
            var r := Reconciled(records, q, Above(head, c), Above(target, c));
            r.Some? && QueueMatches(issued, records, target, r.value) && ValidQueue(r.value)
  {
    hide Honest, Held, Ids, Rest, Sorted, AddAll, TakeAll, ValidRecord, Flatten, FlattenPath, FollowsLedger,
         ValidControls;
    var c := Lca(head, target);
    FollowsLedgerBelow(issued, records, head, c);
    RestIsOnLedger(issued, records, head);
    RestIsOnLedger(issued, records, target);
    assert Honest(issued, NO_POOLS) by { NoPoolsAreHonest(issued); }
    var p := AddSet(issued, NO_POOLS, q.pending);
    var p1 := AddPath(issued, records, p, head, c);
    AddAllSplit(NO_POOLS, Flatten(q.pending), FlattenPath(records, Above(head, c)));
    forall t | 0 <= t < CONTROL_TYPES ensures Held(p1, t) == Ids(Rest(issued, records, c).Of(t)) {
      HeldAtMeet(issued, records, head, c, t);
    }
    var p2 := TakePath(issued, records, p1, target, c);
    var rest := Rest(issued, records, target);
    SortedThree(issued, p2, rest);
    LedgerControlsAreValid(issued, rest);
  }

  lemma NoPoolsAreHonest(issued: seq<Issue>)
    ensures Honest(issued, NO_POOLS) && forall t :: Held(NO_POOLS, t) == {}
  {
  }

  lemma HeldAtMeet(issued: seq<Issue>, records: Records, head: Block, c: Block, t: nat)
    requires t < CONTROL_TYPES && Ancestor(c, head)
    requires FollowsLedger(issued, records, head) && FollowsLedger(issued, records, c)
    ensures Held(NO_POOLS, t) + Ids(Rest(issued, records, head).Of(t)) + Ids(PathItems(records, Above(head, c), t)) ==
            Ids(Rest(issued, records, c).Of(t))
  {
    hide ItemsOf, Consumed, PathItems, Above, Ids, FollowsLedger;
    ConsumedSplits(records, head, c, t);
    var path, rest := PathItems(records, Above(head, c), t), Rest(issued, records, head).Of(t);
    assert Consumed(records, head, t) <= ItemsOf(issued, t) by { PrefixAt(issued, records, head, t); }
    SliceAfter(ItemsOf(issued, t), Consumed(records, c, t), path);
    assert Rest(issued, records, c).Of(t) == path + rest;
    IdsConcat(path, rest);
    NoPoolsAreHonest(issued);
  }

  lemma PrefixAt(issued: seq<Issue>, records: Records, b: Block, t: nat)
    requires FollowsLedger(issued, records, b) && t < CONTROL_TYPES
    ensures Consumed(records, b, t) <= ItemsOf(issued, t)
  {
  }

  lemma SortedThree(issued: seq<Issue>, p: Pools, rest: ControlSet)
    requires Honest(issued, p) && ControlsOnLedger(issued, rest)
    requires forall t :: 0 <= t < CONTROL_TYPES ==> Increasing(rest.Of(t)) && Held(p, t) == Ids(rest.Of(t))
    ensures ControlSet(Sorted(p.available, 0), Sorted(p.available, 1), Sorted(p.available, 2)) == rest
  {
    hide Sorted, Honest, Held, Ids;
    forall t | 0 <= t < CONTROL_TYPES ensures Sorted(p.available, t) == rest.Of(t) {
      assert AllOnLedger(issued, t, rest.Of(t));
      SortedIsLedgerOrder(issued, p, t, rest.Of(t));
    }
    assert Sorted(p.available, 0) == rest.Of(0) && Sorted(p.available, 1) == rest.Of(1);
    assert Sorted(p.available, 2) == rest.Of(2);
  }

  // ----- The steps that move the ledger ------------------------------------------------------------------------

  /** Issuing appends: every chain still follows the ledger and the queue gains the new control at its end. */
  lemma IssueKeepsChains(issued: seq<Issue>, records: Records, b: Block, x: Issue)
    requires FollowsLedger(issued, records, b)
    ensures FollowsLedger(issued + [x], records, b)
    ensures forall t :: 0 <= t < CONTROL_TYPES ==>
              Rest(issued + [x], records, b).Of(t) ==
              Rest(issued, records, b).Of(t) + if x.kind == t then [Queued(|issued| + 1, x.data)] else []
  {
    hide ItemsOf, Consumed, Rest;
    forall t | 0 <= t < CONTROL_TYPES
      ensures Consumed(records, b, t) <= ItemsOf(issued + [x], t)
      ensures ItemsOf(issued + [x], t)[|Consumed(records, b, t)|..] ==
              ItemsOf(issued, t)[|Consumed(records, b, t)|..] +
              if x.kind == t then [Queued(|issued| + 1, x.data)] else []
    {
      ItemsAfterIssue(issued, x, t);
      assert Consumed(records, b, t) <= ItemsOf(issued, t);
    }
  }

  lemma SameControls(a: ControlSet, b: ControlSet)
    requires forall t :: 0 <= t < CONTROL_TYPES ==> a.Of(t) == b.Of(t)
    ensures a == b
  {
    assert a.Of(0) == b.Of(0) && a.Of(1) == b.Of(1) && a.Of(2) == b.Of(2);
  }

  lemma EnqueueKeepsQueue(issued: seq<Issue>, records: Records, head: Block, q: Queue, t: nat, data: Bytes)
    requires QueueMatches(issued, records, head, q) && Enqueue(q, t, data).Some? && WellIssued(issued)
    ensures QueueMatches(issued + [Issue(t, data)], records, head, Enqueue(q, t, data).value)
    ensures WellIssued(issued + [Issue(t, data)])
  {
    hide Rest, FollowsLedger;
    var x := Issue(t, data);
    IssueKeepsChains(issued, records, head, x);
    SameControls(Rest(issued + [x], records, head), Enqueue(q, t, data).value.pending);
  }

  /** Filling a child of the head advances the ledger by exactly the recorded controls. */
  lemma FillKeepsQueue(issued: seq<Issue>, records: Records, b: Block, q: Queue, record: Record, remaining: Queue)
    requires b.Child? && QueueMatches(issued, records, b.parent, q)
    requires remaining.nextID == q.nextID
    requires forall t :: 0 <= t < CONTROL_TYPES ==> record.controls.Of(t) + remaining.Of(t) == q.Of(t)
    requires forall t :: 0 <= t < CONTROL_TYPES ==>
               Consumed(records[b := record], b.parent, t) == Consumed(records, b.parent, t)
    ensures QueueMatches(issued, records[b := record], b, remaining)
  {
    hide ItemsOf, Consumed;
    var records' := records[b := record];
    forall t | 0 <= t < CONTROL_TYPES
      ensures Consumed(records', b, t) <= ItemsOf(issued, t)
      ensures ItemsOf(issued, t)[|Consumed(records', b, t)|..] == remaining.Of(t)
    {
      var all, before := ItemsOf(issued, t), Consumed(records, b.parent, t);
      PrefixAt(issued, records, b.parent, t);
      assert all[|before|..] == record.controls.Of(t) + remaining.Of(t);
      SuffixSplits(all, before, record.controls.Of(t), remaining.Of(t));
      ConsumedAtTop(records', b, t);
    }
    SameControls(Rest(issued, records', b), remaining.pending);
  }

  lemma ConsumedAtTop(records: Records, b: Block, t: nat)
    requires b.Child?
    ensures Consumed(records, b, t) == Consumed(records, b.parent, t) + ControlsOf(records, b).Of(t)
  {
  }

  lemma SuffixSplits<T>(all: seq<T>, before: seq<T>, taken: seq<T>, left: seq<T>)
    requires before <= all && all[|before|..] == taken + left
    ensures before + taken <= all && all[|before + taken|..] == left
  {
    assert all == before + taken + left;
  }

  /** A block the tree already holds gets the record it already has: the bytes it commits to fix how many controls it
      takes, and its parent's chain fixes which. */
  lemma RefillIsSame(issued: seq<Issue>, records: Records, b: Block, q: Queue, record: Record, remaining: Queue)
    requires b.Child? && b in records && QueueMatches(issued, records, b.parent, q) && FollowsLedger(issued, records, b)
    requires ValidRecord(record) && ValidRecord(records[b])
    requires record.native == records[b].native && record.requests == records[b].requests
    requires forall t :: 0 <= t < CONTROL_TYPES ==> record.controls.Of(t) + remaining.Of(t) == q.Of(t)
    ensures record == records[b]
  {
    hide ItemsOf, ValidRecord, ControlCount;
    forall t | 0 <= t < CONTROL_TYPES ensures record.controls.Of(t) == records[b].controls.Of(t) {
      RecordCounts(record, t);
      RecordCounts(records[b], t);
      RestOfParent(issued, records, b);
      var n := |record.controls.Of(t)|;
      assert (record.controls.Of(t) + remaining.Of(t))[..n] == record.controls.Of(t);
      assert Rest(issued, records, b.parent).Of(t)[..n] == records[b].controls.Of(t);
    }
    SameControls(record.controls, records[b].controls);
  }

  // ----- Exactly once -------------------------------------------------------------------------------------------

  function CountId(items: seq<Queued>, id: nat): nat {
    if items == [] then 0 else (if items[0].id == id then 1 else 0) + CountId(items[1..], id)
  }

  lemma {:induction false} CountConcat(a: seq<Queued>, b: seq<Queued>, id: nat)
    ensures CountId(a + b, id) == CountId(a, id) + CountId(b, id)
  {
    if a == [] {
      assert a + b == b;
    } else {
      assert (a + b)[1..] == a[1..] + b;
      CountConcat(a[1..], b, id);
    }
  }

  lemma {:induction false} CountOnLedger(issued: seq<Issue>, t: nat, id: nat)
    ensures CountId(ItemsOf(issued, t), id) == if 1 <= id <= |issued| && issued[id - 1].kind == t then 1 else 0
  {
    if issued != [] {
      var last := |issued| - 1;
      CountOnLedger(issued[..last], t, id);
      var tail := if issued[last].kind == t then [Queued(last + 1, issued[last].data)] else [];
      CountConcat(ItemsOf(issued[..last], t), tail, id);
    }
  }

  /** How often an ID occurs in the queue and in the records of the chain of `head` together. */
  function Occurrences(records: Records, head: Block, q: Queue, id: nat): nat {
    CountId(Consumed(records, head, 0), id) + CountId(q.Of(0), id) +
    CountId(Consumed(records, head, 1), id) + CountId(q.Of(1), id) +
    CountId(Consumed(records, head, 2), id) + CountId(q.Of(2), id)
  }

  /** Every issued ID occurs exactly once, and no other ID occurs at all. */
  lemma IssuedExactlyOnce(issued: seq<Issue>, records: Records, head: Block, q: Queue, id: nat)
    requires WellIssued(issued) && QueueMatches(issued, records, head, q)
    ensures Occurrences(records, head, q, id) == if 1 <= id < q.nextID then 1 else 0
  {
    hide ItemsOf, Consumed, CountId;
    forall t | 0 <= t < CONTROL_TYPES
      ensures CountId(Consumed(records, head, t), id) + CountId(q.Of(t), id) ==
              if 1 <= id <= |issued| && issued[id - 1].kind == t then 1 else 0
    {
      PrefixAt(issued, records, head, t);
      assert ItemsOf(issued, t) == Consumed(records, head, t) + q.Of(t);
      CountConcat(Consumed(records, head, t), q.Of(t), id);
      CountOnLedger(issued, t, id);
    }
  }
}
