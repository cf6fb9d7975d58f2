/** `reconcileExecutionRequestQueue`: the queue after the canonical chain moves from one tip to another. */
module Reconcile {
  import opened Prelude
  import opened BlockTree
  import opened RequestQueue

  type Records = map<Block, Record>

  /** A control with the type of the list it stands in. */
  type Tagged = (nat, Queued)

  datatype Known = Known(kind: nat, data: Bytes)

  /** The maps of the source: values seen for each ID, available controls by type and ID, IDs taken by the new path. */
  datatype Pools = Pools(known: map<nat, Known>, available: map<(nat, nat), Queued>, consumed: set<nat>)

  const NO_POOLS := Pools(map[], map[], {})

  function Tag(t: nat, items: seq<Queued>): seq<Tagged> {
    if items == [] then [] else [(t, items[0])] + Tag(t, items[1..])
  }

  function Flatten(c: ControlSet): seq<Tagged> {
    Tag(0, c.Of(0)) + Tag(1, c.Of(1)) + Tag(2, c.Of(2))
  }

  function ControlsOf(records: Records, b: Block): ControlSet {
    if b in records then records[b].controls else NO_CONTROLS
  }

  /** The controls recorded along a tip-first path, lowest block first. */
  function FlattenPath(records: Records, path: seq<Block>): seq<Tagged> {
    if path == [] then [] else FlattenPath(records, path[1..]) + Flatten(ControlsOf(records, path[0]))
  }

  /** The `remember` closure: an ID keeps one type and one payload. */
  function Remember(known: map<nat, Known>, x: Tagged): Option<map<nat, Known>> {
    if x.1.id !in known then Some(known[x.1.id := Known(x.0, x.1.data)])
    else if known[x.1.id] == Known(x.0, x.1.data) then Some(known)
    else None
  }

  function AddOne(p: Pools, x: Tagged): Option<Pools> {
    var known := Remember(p.known, x);
    if known.None? then None else Some(p.(known := known.value, available := p.available[(x.0, x.1.id) := x.1]))
  }

  function TakeOne(p: Pools, x: Tagged): Option<Pools> {
    var known := Remember(p.known, x);
    if known.None? || x.1.id in p.consumed || (x.0, x.1.id) !in p.available then None
    else Some(Pools(known.value, p.available - {(x.0, x.1.id)}, p.consumed + {x.1.id}))
  }

  function AddAll(p: Pools, xs: seq<Tagged>): Option<Pools>
    decreases |xs|
  {
    if xs == [] then Some(p)
    else var q := AddOne(p, xs[0]); if q.None? then None else AddAll(q.value, xs[1..])
  }

  function TakeAll(p: Pools, xs: seq<Tagged>): Option<Pools>
    decreases |xs|
  {
    if xs == [] then Some(p)
    else var q := TakeOne(p, xs[0]); if q.None? then None else TakeAll(q.value, xs[1..])
  }

  // ----- Sorting by ID --------------------------------------------------------------------------------------

  predicate Least(m: nat, s: set<nat>) {
    m in s && forall x :: x in s ==> m <= x
  }

  lemma {:induction false} LeastExists(s: set<nat>)
    requires s != {}
    ensures exists m :: Least(m, s)
  {
    var x :| x in s;
    var rest := s - {x};
    if rest == {} {
      assert s == {x};
      assert Least(x, s);
    } else {
      LeastExists(rest);
      var m :| Least(m, rest);
      forall y | y in s ensures (if m < x then m else x) <= y { assert y == x || y in rest; }
      assert Least(if m < x then m else x, s);
    }
  }

  /** The elements of a set in ascending order. */
  ghost function Ascending(s: set<nat>): seq<nat> {
    if s == {} then [] else
    LeastExists(s);
    var m :| Least(m, s);
    [m] + Ascending(s - {m})
  }

  predicate StrictlyAscending(l: seq<nat>) {
    forall i, j :: 0 <= i < j < |l| ==> l[i] < l[j]
  }

  /** The ascending order is the only strictly ascending listing of a set. */
  lemma {:induction false} AscendingIsUnique(s: set<nat>, l: seq<nat>)
    requires StrictlyAscending(l) && forall x :: x in s <==> x in l
    ensures Ascending(s) == l
  {
    if l == [] {
      assert s == {};
    } else {
      assert l[0] in s;
      assert Least(l[0], s);
      forall x ensures x in s - {l[0]} <==> x in l[1..] {
        if x in l[1..] { assert x in l; }
      }
      AscendingIsUnique(s - {l[0]}, l[1..]);
    }
  }

  function IdsOfType(available: map<(nat, nat), Queued>, t: nat): set<nat> {
    set k | k in available && k.0 == t :: k.1
  }

  ghost predicate ListsType(available: map<(nat, nat), Queued>, t: nat, ids: seq<nat>) {
    forall i :: 0 <= i < |ids| ==> (t, ids[i]) in available
  }

  ghost function Select(available: map<(nat, nat), Queued>, t: nat, ids: seq<nat>): (r: seq<Queued>)
    requires ListsType(available, t, ids)
    ensures |r| == |ids| && forall i :: 0 <= i < |r| ==> r[i] == available[(t, ids[i])]
  {
    if ids == [] then [] else
    assert (t, ids[0]) in available;
    assert ListsType(available, t, ids[1..]) by {
      forall i | 0 <= i < |ids[1..]| ensures (t, ids[1..][i]) in available { assert ids[1..][i] == ids[i + 1]; }
    }
    [available[(t, ids[0])]] + Select(available, t, ids[1..])
  }

  lemma AscendingCons(s: set<nat>) returns (m: nat)
    requires s != {}
    ensures Least(m, s) && Ascending(s) == [m] + Ascending(s - {m})
  {
    LeastExists(s);
    m :| Least(m, s) && Ascending(s) == [m] + Ascending(s - {m});
  }

  lemma {:induction false} AscendingLists(s: set<nat>)
    ensures forall x :: x in s <==> x in Ascending(s)
    ensures StrictlyAscending(Ascending(s))
  {
    if s != {} {
      var m := AscendingCons(s);
      AscendingLists(s - {m});
      var rest := Ascending(s - {m});
      hide Ascending;
      forall i, j | 0 <= i < j < |Ascending(s)| ensures Ascending(s)[i] < Ascending(s)[j] {
        assert rest[j - 1] in rest;
      }
      forall x ensures x in s <==> x in Ascending(s) {
        assert x in s <==> x == m || x in s - {m};
      }
    }
  }

  lemma AscendingListsType(available: map<(nat, nat), Queued>, t: nat, s: set<nat>)
    requires s <= IdsOfType(available, t)
    ensures ListsType(available, t, Ascending(s))
  {
  }

  /** The `toSortedSlice` closure. */
  ghost function Sorted(available: map<(nat, nat), Queued>, t: nat): seq<Queued> {
    AscendingListsType(available, t, IdsOfType(available, t));
    Select(available, t, Ascending(IdsOfType(available, t)))
  }

  predicate RecordsLoad(records: Records, path: seq<Block>) {
    forall i :: 0 <= i < |path| && path[i] in records ==> ValidRecord(records[path[i]])
  }

  /** The whole function: `None` is any of its error returns. */
  ghost function Reconciled(records: Records, q: Queue, oldPath: seq<Block>, newPath: seq<Block>): Option<Queue> {
    var added := AddAll(NO_POOLS, Flatten(q.pending) + FlattenPath(records, oldPath));
    if added.None? || !RecordsLoad(records, oldPath) || !RecordsLoad(records, newPath) then None
    else
      var taken := TakeAll(added.value, FlattenPath(records, newPath));
      if taken.None? then None
      else
        var a := taken.value.available;
        var pending := ControlSet(Sorted(a, 0), Sorted(a, 1), Sorted(a, 2));
        if ValidControls(pending) then Some(Queue(q.nextID, pending)) else None
  }

  // ----- The loops ------------------------------------------------------------------------------------------

  /** Every available control stands under its own ID. */
  predicate Keyed(p: Pools) {
    forall k :: k in p.available ==> p.available[k].id == k.1
  }

  method AddItems(p: Pools, t: nat, items: seq<Queued>) returns (r: Option<Pools>)
    requires Keyed(p)
    ensures r == AddAll(p, Tag(t, items)) && (r.Some? ==> Keyed(r.value))
  {
    hide Remember;
    var pools := p;
    assert items[0..] == items;
    for i := 0 to |items|
      invariant Keyed(pools) && AddAll(p, Tag(t, items)) == AddAll(pools, Tag(t, items[i..]))
    {
      assert items[i..][1..] == items[i + 1..];
      assert Tag(t, items[i..])[1..] == Tag(t, items[i + 1..]);
      var next := AddOne(pools, (t, items[i]));
      if next.None? { return None; }
      pools := next.value;
    }
    return Some(pools);
  }

  method TakeItems(p: Pools, t: nat, items: seq<Queued>) returns (r: Option<Pools>)
    requires Keyed(p)
    ensures r == TakeAll(p, Tag(t, items)) && (r.Some? ==> Keyed(r.value))
  {
    hide Remember;
    var pools := p;
    assert items[0..] == items;
    for i := 0 to |items|
      invariant Keyed(pools) && TakeAll(p, Tag(t, items)) == TakeAll(pools, Tag(t, items[i..]))
    {
      assert items[i..][1..] == items[i + 1..];
      assert Tag(t, items[i..])[1..] == Tag(t, items[i + 1..]);
      var next := TakeOne(pools, (t, items[i]));
      if next.None? { return None; }
      pools := next.value;
    }
    return Some(pools);
  }

  lemma {:induction false} AddAllSplit(p: Pools, a: seq<Tagged>, b: seq<Tagged>)
    ensures AddAll(p, a + b) == if AddAll(p, a).None? then None else AddAll(AddAll(p, a).value, b)
    decreases |a|
  {
    if a == [] {
      assert a + b == b;
    } else {
      assert (a + b)[1..] == a[1..] + b;
      if AddOne(p, a[0]).Some? { AddAllSplit(AddOne(p, a[0]).value, a[1..], b); }
    }
  }

  lemma {:induction false} TakeAllSplit(p: Pools, a: seq<Tagged>, b: seq<Tagged>)
    ensures TakeAll(p, a + b) == if TakeAll(p, a).None? then None else TakeAll(TakeAll(p, a).value, b)
    decreases |a|
  {
    if a == [] {
      assert a + b == b;
    } else {
      assert (a + b)[1..] == a[1..] + b;
      if TakeOne(p, a[0]).Some? { TakeAllSplit(TakeOne(p, a[0]).value, a[1..], b); }
    }
  }

  /** The tags of the lists of a control set from type `t` on. */
  function FlattenFrom(c: ControlSet, t: nat): seq<Tagged>
    decreases CONTROL_TYPES - t
  {
    if t >= CONTROL_TYPES then [] else Tag(t, c.Of(t)) + FlattenFrom(c, t + 1)
  }

  lemma FlattenIsFromZero(c: ControlSet)
    ensures FlattenFrom(c, 0) == Flatten(c)
  {
  }

  method AddControls(p: Pools, c: ControlSet) returns (r: Option<Pools>)
    requires Keyed(p)
    ensures r == AddAll(p, Flatten(c)) && (r.Some? ==> Keyed(r.value))
  {
    hide Tag, AddAll, Keyed;
    FlattenIsFromZero(c);
    var pools := p;
    for t := 0 to CONTROL_TYPES
      invariant Keyed(pools) && AddAll(p, Flatten(c)) == AddAll(pools, FlattenFrom(c, t))
    {
      AddAllSplit(pools, Tag(t, c.Of(t)), FlattenFrom(c, t + 1));
      var next := AddItems(pools, t, c.Of(t));
      if next.None? { return None; }
      pools := next.value;
    }
    AddNothing(pools);
    return Some(pools);
  }

  lemma AddNothing(p: Pools)
    ensures AddAll(p, []) == Some(p) && TakeAll(p, []) == Some(p)
  {
  }

  method TakeControls(p: Pools, c: ControlSet) returns (r: Option<Pools>)
    requires Keyed(p)
    ensures r == TakeAll(p, Flatten(c)) && (r.Some? ==> Keyed(r.value))
  {
    hide Tag, TakeAll, Keyed;
    FlattenIsFromZero(c);
    var pools := p;
    for t := 0 to CONTROL_TYPES
      invariant Keyed(pools) && TakeAll(p, Flatten(c)) == TakeAll(pools, FlattenFrom(c, t))
    {
      TakeAllSplit(pools, Tag(t, c.Of(t)), FlattenFrom(c, t + 1));
      var next := TakeItems(pools, t, c.Of(t));
      if next.None? { return None; }
      pools := next.value;
    }
    AddNothing(pools);
    return Some(pools);
  }

  lemma FlattenPathStep(records: Records, path: seq<Block>, i: nat)
    requires i < |path|
    ensures FlattenPath(records, path[i..]) ==
            FlattenPath(records, path[i + 1..]) + Flatten(ControlsOf(records, path[i]))
  {
  }

  /** Lowest block first: the paths are tip first and walked backward. */
  method AddPathControls(records: Records, p: Pools, path: seq<Block>) returns (r: Option<Pools>)
    requires Keyed(p)
    ensures r == if RecordsLoad(records, path) then AddAll(p, FlattenPath(records, path)) else None
    ensures r.Some? ==> Keyed(r.value)
  {
    hide ValidRecord, AddAll, Keyed, Flatten;
    var pools := p;
    AddNothing(p);
    assert path[|path|..] == [] && path[0..] == path;
    for i := |path| downto 0
      invariant Keyed(pools) && AddAll(p, FlattenPath(records, path[i..])) == Some(pools)
      invariant forall j :: i <= j < |path| && path[j] in records ==> ValidRecord(records[path[j]])
    {
      FlattenPathStep(records, path, i);
      AddAllSplit(p, FlattenPath(records, path[i + 1..]), Flatten(ControlsOf(records, path[i])));
      if path[i] in records && !ValidRecord(records[path[i]]) { return None; }
      var next := AddControls(pools, ControlsOf(records, path[i]));
      if next.None? {
        AddFailsAbove(records, p, path, i);
        return None;
      }
      pools := next.value;
    }
    return Some(pools);
  }

  /** A failure at one block is a failure of the whole path. */
  lemma {:induction false} AddFailsAbove(records: Records, p: Pools, path: seq<Block>, i: nat)
    requires i <= |path| && AddAll(p, FlattenPath(records, path[i..])).None?
    ensures AddAll(p, FlattenPath(records, path)).None?
  {
    hide AddAll, Flatten;
    assert path[0..] == path;
    if i > 0 {
      FlattenPathStep(records, path, i - 1);
      AddAllSplit(p, FlattenPath(records, path[i..]), Flatten(ControlsOf(records, path[i - 1])));
      AddFailsAbove(records, p, path, i - 1);
    }
  }

  method TakePathControls(records: Records, p: Pools, path: seq<Block>) returns (r: Option<Pools>)
    requires Keyed(p)
    ensures r == if RecordsLoad(records, path) then TakeAll(p, FlattenPath(records, path)) else None
    ensures r.Some? ==> Keyed(r.value)
  {
    hide ValidRecord, TakeAll, Keyed, Flatten;
    var pools := p;
    AddNothing(p);
    assert path[|path|..] == [] && path[0..] == path;
    for i := |path| downto 0
      invariant Keyed(pools) && TakeAll(p, FlattenPath(records, path[i..])) == Some(pools)
      invariant forall j :: i <= j < |path| && path[j] in records ==> ValidRecord(records[path[j]])
    {
      FlattenPathStep(records, path, i);
      TakeAllSplit(p, FlattenPath(records, path[i + 1..]), Flatten(ControlsOf(records, path[i])));
      if path[i] in records && !ValidRecord(records[path[i]]) { return None; }
      var next := TakeControls(pools, ControlsOf(records, path[i]));
      if next.None? {
        TakeFailsAbove(records, p, path, i);
        return None;
      }
      pools := next.value;
    }
    return Some(pools);
  }

  lemma {:induction false} TakeFailsAbove(records: Records, p: Pools, path: seq<Block>, i: nat)
    requires i <= |path| && TakeAll(p, FlattenPath(records, path[i..])).None?
    ensures TakeAll(p, FlattenPath(records, path)).None?
  {
    hide TakeAll, Flatten;
    assert path[0..] == path;
    if i > 0 {
      FlattenPathStep(records, path, i - 1);
      TakeAllSplit(p, FlattenPath(records, path[i..]), Flatten(ControlsOf(records, path[i - 1])));
      TakeFailsAbove(records, p, path, i - 1);
    }
  }

  /** The `toSortedSlice` closure: entries met in any order, kept sorted by ID. */
  method SortedSlice(available: map<(nat, nat), Queued>, t: nat) returns (items: seq<Queued>)
    requires forall k :: k in available ==> available[k].id == k.1
    ensures items == Sorted(available, t)
  {
    var rest := set k | k in available && k.0 == t;
    items := [];
    ghost var met: set<nat> := {};
    while rest != {}
      invariant forall k :: k in rest ==> k in available && k.0 == t
      invariant forall k :: k in available && k.0 == t ==> (k in rest <==> k.1 !in met)
      invariant ListsAll(available, t, met, items)
      decreases |rest|
    {
      var k :| k in rest;
      items := InsertById(available, t, met, items, available[k]);
      rest, met := rest - {k}, met + {k.1};
    }
    SortedIsListing(available, t, met, items);
  }

  /** `items` lists the entries of type `t` with the IDs `met`, by increasing ID. */
  ghost predicate ListsAll(available: map<(nat, nat), Queued>, t: nat, met: set<nat>, items: seq<Queued>) {
    && Increasing(items)
    && (forall i :: 0 <= i < |items| ==> (t, items[i].id) in available && available[(t, items[i].id)] == items[i])
    && (forall x :: x in met <==> exists i :: 0 <= i < |items| && items[i].id == x)
  }

  method InsertById(available: map<(nat, nat), Queued>, t: nat, ghost met: set<nat>, items: seq<Queued>, item: Queued)
    returns (r: seq<Queued>)
    requires ListsAll(available, t, met, items) && item.id !in met
    requires (t, item.id) in available && available[(t, item.id)] == item
    ensures ListsAll(available, t, met + {item.id}, r)
  {
    var at := 0;
    while at < |items| && items[at].id < item.id
      invariant 0 <= at <= |items| && forall i :: 0 <= i < at ==> items[i].id < item.id
    {
      at := at + 1;
    }
    r := items[..at] + [item] + items[at..];
    InsertedLists(available, t, met, items, item, at);
  }

  lemma InsertedLists(available: map<(nat, nat), Queued>, t: nat, met: set<nat>, items: seq<Queued>, item: Queued,
                      at: nat)
    requires ListsAll(available, t, met, items) && item.id !in met
    requires (t, item.id) in available && available[(t, item.id)] == item
    requires at <= |items| && (forall i :: 0 <= i < at ==> items[i].id < item.id)
    requires at < |items| ==> item.id <= items[at].id
    ensures ListsAll(available, t, met + {item.id}, items[..at] + [item] + items[at..])
  {
    var r := items[..at] + [item] + items[at..];
    forall i | at <= i < |items| ensures item.id < items[i].id {
      assert items[i].id in met;
    }
    InsertedAt(items, item, at);
    forall x ensures x in met + {item.id} <==> exists i :: 0 <= i < |r| && r[i].id == x {
      InsertedIds(met, items, item, at, x);
    }
  }

  lemma InsertedAt(items: seq<Queued>, item: Queued, at: nat)
    requires at <= |items|
    ensures var r := items[..at] + [item] + items[at..];
            |r| == |items| + 1 &&
            forall i :: 0 <= i < |r| ==> r[i] == if i < at then items[i] else if i == at then item else items[i - 1]
  {
  }

  lemma InsertedIds(met: set<nat>, items: seq<Queued>, item: Queued, at: nat, x: nat)
    requires at <= |items| && (x in met <==> exists i :: 0 <= i < |items| && items[i].id == x)
    ensures var r := items[..at] + [item] + items[at..];
            x in met + {item.id} <==> exists i :: 0 <= i < |r| && r[i].id == x
  {
    var r := items[..at] + [item] + items[at..];
    InsertedAt(items, item, at);
    assert r[at] == item;
    if x in met {
      var i :| 0 <= i < |items| && items[i].id == x;
      assert r[if i < at then i else i + 1].id == x;
    }
  }

  lemma SortedIsListing(available: map<(nat, nat), Queued>, t: nat, met: set<nat>, items: seq<Queued>)
    requires ListsAll(available, t, met, items) && met == IdsOfType(available, t)
    ensures Sorted(available, t) == items
  {
    var ids := seq(|items|, i requires 0 <= i < |items| => items[i].id);
    forall x ensures x in met <==> x in ids {
      if x in met {
        var i :| 0 <= i < |items| && items[i].id == x;
        assert ids[i] == x;
      }
    }
    AscendingIsUnique(met, ids);
    AscendingListsType(available, t, met);
    assert Sorted(available, t) == Select(available, t, ids);
  }

  /** The whole function in the source's form. */
  method ReconcileQueue(records: Records, q: Queue, oldPath: seq<Block>, newPath: seq<Block>) returns (r: Option<Queue>)
    ensures r == Reconciled(records, q, oldPath, newPath)
  {
    hide AddAll, TakeAll, Flatten, FlattenPath, RecordsLoad, Sorted, ValidControls;
    AddAllSplit(NO_POOLS, Flatten(q.pending), FlattenPath(records, oldPath));
    var queued := AddControls(NO_POOLS, q.pending);
    if queued.None? { return None; }
    var added := AddPathControls(records, queued.value, oldPath);
    if added.None? { return None; }
    var taken := TakePathControls(records, added.value, newPath);
    if taken.None? { return None; }
    var deposits := SortedSlice(taken.value.available, 0);
    var withdrawals := SortedSlice(taken.value.available, 1);
    var consolidations := SortedSlice(taken.value.available, 2);
    var pending := ControlSet(deposits, withdrawals, consolidations);
    var valid := ValidateControls(pending);
    if !valid { return None; }
    return Some(Queue(q.nextID, pending));
  }
}
