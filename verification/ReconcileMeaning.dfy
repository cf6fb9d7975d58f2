/** Reconciliation on any queue, any records and any two paths: exactly when it succeeds and exactly what it leaves. */
module ReconcileMeaning {
  import opened BlockTree
  import opened RequestCodec
  import opened RequestQueue
  import opened Reconcile

  /** The list of its type holds the control. */
  predicate Lists(c: ControlSet, x: Tagged) {
    || (x.0 == 0 && x.1 in c.deposits)
    || (x.0 == 1 && x.1 in c.withdrawals)
    || (x.0 == 2 && x.1 in c.consolidations)
  }

  predicate ListedAt(records: Records, path: seq<Block>, i: nat, x: Tagged)
    requires i < |path|
  {
    path[i] in records && Lists(records[path[i]].controls, x)
  }

  ghost predicate OnPath(records: Records, path: seq<Block>, x: Tagged) {
    exists i :: 0 <= i < |path| && ListedAt(records, path, i, x)
  }

  /** Pending, or consumed by the path that is left. */
  ghost predicate Offered(records: Records, q: Queue, oldPath: seq<Block>, x: Tagged) {
    Lists(q.pending, x) || OnPath(records, oldPath, x)
  }

  ghost predicate LeftOver(records: Records, q: Queue, oldPath: seq<Block>, newPath: seq<Block>, x: Tagged) {
    Offered(records, q, oldPath, x) && !OnPath(records, newPath, x)
  }

  ghost predicate Mentioned(records: Records, q: Queue, oldPath: seq<Block>, newPath: seq<Block>, x: Tagged) {
    Offered(records, q, oldPath, x) || OnPath(records, newPath, x)
  }

  /** No ID is mentioned with two types or two payloads. */
  ghost predicate NoConflict(records: Records, q: Queue, oldPath: seq<Block>, newPath: seq<Block>) {
    forall x, y | Mentioned(records, q, oldPath, newPath, x) && Mentioned(records, q, oldPath, newPath, y) ::
      x.1.id == y.1.id ==> x == y
  }

  /** No ID is consumed by two places of the path. */
  ghost predicate ConsumedOnce(records: Records, path: seq<Block>) {
    forall i, j, x, y :: 0 <= i < j < |path| && ListedAt(records, path, i, x) && ListedAt(records, path, j, y) ==>
                           x.1.id != y.1.id
  }

  /** A positive ID, and 192, 76 or 116 bytes by type. */
  predicate GoodControl(x: Tagged) {
    x.1.id > 0 && |x.1.data| == (if x.0 == 0 then 192 else if x.0 == 1 then 76 else 116)
  }

  /** Reconciliation succeeds exactly when every record met is valid, no ID is mentioned with two values, the new path
      consumes no ID twice and nothing that is not pending or given back, and what is left over is well formed. What it
      leaves is exactly what is offered and not consumed by the new path, each list by increasing ID. */
  lemma ReconciledIff(records: Records, q: Queue, oldPath: seq<Block>, newPath: seq<Block>)
    ensures Reconciled(records, q, oldPath, newPath).Some? <==>
            && RecordsLoad(records, oldPath) && RecordsLoad(records, newPath)
            && NoConflict(records, q, oldPath, newPath)
            && ConsumedOnce(records, newPath)
            && (forall x :: OnPath(records, newPath, x) ==> Offered(records, q, oldPath, x))
            && (forall x :: LeftOver(records, q, oldPath, newPath, x) ==> GoodControl(x))
    ensures Reconciled(records, q, oldPath, newPath).Some? ==>
              var r := Reconciled(records, q, oldPath, newPath).value;
              && r.nextID == q.nextID
              && Increasing(r.pending.deposits) && Increasing(r.pending.withdrawals)
              && Increasing(r.pending.consolidations)
              && forall x :: Lists(r.pending, x) <==> LeftOver(records, q, oldPath, newPath, x)
  {
    var offered := Members(Flatten(q.pending) + FlattenPath(records, oldPath));
    var taken := Members(FlattenPath(records, newPath));
    OfferedMembers(records, q, oldPath);
    PathMembers(records, newPath);
    ConflictMeans(records, q, oldPath, newPath);
    ReconciledOnSets(records, q, oldPath, newPath);
    if RecordsLoad(records, newPath) { OnceMeans(records, newPath); }
    hide Reconciled, Flatten, FlattenPath, RecordsLoad, OneValue, Offered, OnPath, NoConflict, ConsumedOnce,
         GoodControl, Lists, TagsDiffer, Members, Increasing;
    assert forall x :: x in offered - taken <==> LeftOver(records, q, oldPath, newPath, x);
    assert taken <= offered <==> forall x :: OnPath(records, newPath, x) ==> Offered(records, q, oldPath, x);
  }

  /** The same with the controls of the lists gathered into sets. */
  lemma ReconciledOnSets(records: Records, q: Queue, oldPath: seq<Block>, newPath: seq<Block>)
    ensures var offered := Members(Flatten(q.pending) + FlattenPath(records, oldPath));
            var taken := Members(FlattenPath(records, newPath));
            var r := Reconciled(records, q, oldPath, newPath);
            && (r.Some? <==>
                && RecordsLoad(records, oldPath) && RecordsLoad(records, newPath)
                && OneValue(offered + taken) && TagsDiffer(FlattenPath(records, newPath)) && taken <= offered
                && forall x :: x in offered - taken ==> GoodControl(x))
            && (r.Some? ==>
                && r.value.nextID == q.nextID
                && Increasing(r.value.pending.deposits) && Increasing(r.value.pending.withdrawals)
                && Increasing(r.value.pending.consolidations)
                && forall x :: Lists(r.value.pending, x) <==> x in offered - taken)
  {
    hide AddAll, TakeAll, Flatten, FlattenPath, RecordsLoad, Sorted, ValidControls, Increasing, LeftIs, KnownIs,
         OneValue, Offered, GoodControl, Lists, TagsDiffer, Members;
    var xs, ys := Flatten(q.pending) + FlattenPath(records, oldPath), FlattenPath(records, newPath);
    var offered, taken := Members(xs), Members(ys);
    var added := AddAll(NO_POOLS, xs);
    AddAllFromNothing(xs);
    if added.Some? {
      TakeAllMeans(added.value, ys, offered, offered);
      if TakeAll(added.value, ys).Some? {
        OneValueBelow(offered + taken, offered - taken);
        OfferedMembers(records, q, oldPath);
        LeftHasType(records, q, oldPath, offered - taken);
        SortedMeans(TakeAll(added.value, ys).value.available, offered - taken);
      }
    } else if OneValue(offered + taken) {
      OneValueBelow(offered + taken, offered);
    }
  }

  lemma AddAllFromNothing(xs: seq<Tagged>)
    ensures AddAll(NO_POOLS, xs).Some? <==> OneValue(Members(xs))
    ensures AddAll(NO_POOLS, xs).Some? ==>
              var p := AddAll(NO_POOLS, xs).value;
              p.consumed == {} && KnownIs(p.known, Members(xs)) && LeftIs(p.available, Members(xs))
  {
    AddAllMeans(NO_POOLS, xs, {});
    assert {} + Members(xs) == Members(xs);
  }

  lemma OneValueBelow(all: set<Tagged>, some: set<Tagged>)
    requires OneValue(all) && some <= all
    ensures OneValue(some)
  {
  }

  // ----- The maps as sets of controls -----------------------------------------------------------------------

  function Members(xs: seq<Tagged>): set<Tagged> {
    set x | x in xs
  }

  ghost predicate OneValue(xs: set<Tagged>) {
    forall x, y :: x in xs && y in xs && x.1.id == y.1.id ==> x == y
  }

  predicate TagsDiffer(xs: seq<Tagged>) {
    forall i, j :: 0 <= i < j < |xs| ==> xs[i].1.id != xs[j].1.id
  }

  ghost predicate KnownIs(known: map<nat, Known>, seen: set<Tagged>) {
    && (forall id :: id in known ==> (known[id].kind, Queued(id, known[id].data)) in seen)
    && (forall x :: x in seen ==> x.1.id in known && known[x.1.id] == Known(x.0, x.1.data))
  }

  ghost predicate LeftIs(available: map<(nat, nat), Queued>, left: set<Tagged>) {
    && (forall k :: k in available ==> available[k].id == k.1 && (k.0, available[k]) in left)
    && (forall x :: x in left ==> (x.0, x.1.id) in available && available[(x.0, x.1.id)] == x.1)
  }

  lemma RememberMeans(known: map<nat, Known>, x: Tagged, seen: set<Tagged>)
    requires KnownIs(known, seen)
    ensures Remember(known, x).Some? <==> OneValue(seen + {x})
    ensures Remember(known, x).Some? ==> KnownIs(Remember(known, x).value, seen + {x})
  {
    if x.1.id in known {
      var y := (known[x.1.id].kind, Queued(x.1.id, known[x.1.id].data));
      assert y in seen + {x} && x in seen + {x};
    }
  }

  lemma {:induction false} AddAllMeans(p: Pools, xs: seq<Tagged>, seen: set<Tagged>)
    requires KnownIs(p.known, seen) && LeftIs(p.available, seen)
    ensures AddAll(p, xs).Some? <==> OneValue(seen + Members(xs))
    ensures AddAll(p, xs).Some? ==>
              var p' := AddAll(p, xs).value;
              && p'.consumed == p.consumed
              && KnownIs(p'.known, seen + Members(xs)) && LeftIs(p'.available, seen + Members(xs))
    decreases |xs|
  {
    if xs == [] {
      assert seen + Members(xs) == seen;
    } else {
      RememberMeans(p.known, xs[0], seen);
      assert (seen + {xs[0]}) + Members(xs[1..]) == seen + Members(xs);
      if AddOne(p, xs[0]).Some? {
        AddedLeft(p.available, xs[0], seen);
        AddAllMeans(AddOne(p, xs[0]).value, xs[1..], seen + {xs[0]});
      }
    }
  }

  lemma AddedLeft(available: map<(nat, nat), Queued>, x: Tagged, left: set<Tagged>)
    requires LeftIs(available, left) && OneValue(left + {x})
    ensures LeftIs(available[(x.0, x.1.id) := x.1], left + {x})
  {
    var available' := available[(x.0, x.1.id) := x.1];
    forall k | k in available' ensures available'[k].id == k.1 && (k.0, available'[k]) in left + {x} {}
    forall y | y in left + {x} ensures (y.0, y.1.id) in available' && available'[(y.0, y.1.id)] == y.1 {}
  }

  lemma TakenLeft(available: map<(nat, nat), Queued>, x: Tagged, left: set<Tagged>)
    requires LeftIs(available, left) && OneValue(left) && x in left
    ensures LeftIs(available - {(x.0, x.1.id)}, left - {x})
  {
    var available' := available - {(x.0, x.1.id)};
    forall y | y in left - {x} ensures (y.0, y.1.id) in available' && available'[(y.0, y.1.id)] == y.1 {
      assert y.1.id != x.1.id;
    }
  }

  lemma {:induction false} TakeAllMeans(p: Pools, ys: seq<Tagged>, seen: set<Tagged>, left: set<Tagged>)
    requires KnownIs(p.known, seen) && LeftIs(p.available, left) && left <= seen
    ensures TakeAll(p, ys).Some? <==>
            && OneValue(seen + Members(ys)) && TagsDiffer(ys)
            && forall y :: y in Members(ys) ==> y.1.id !in p.consumed && y in left
    ensures TakeAll(p, ys).Some? ==> LeftIs(TakeAll(p, ys).value.available, left - Members(ys))
    decreases |ys|
  {
    if ys == [] {
      assert seen + Members(ys) == seen && left - Members(ys) == left;
      FunctionIsOneValue(p.known, seen);
    } else {
      hide LeftIs, KnownIs, OneValue, TagsDiffer, TakeOne, Members;
      var x, rest := ys[0], ys[1..];
      TakeOneMeans(p, x, seen, left);
      FirstTag(ys);
      assert seen + {x} + Members(rest) == seen + Members(ys);
      assert (left - {x}) - Members(rest) == left - Members(ys);
      var p' := TakeOne(p, x);
      if p'.Some? {
        TakeAllMeans(p'.value, rest, seen + {x}, left - {x});
        OthersAreFree(p.consumed, x, Members(rest), left);
      } else if OneValue(seen + Members(ys)) {
        OneValueBelow(seen + Members(ys), seen + {x});
        assert x in Members(ys);
      }
    }
  }

  /** Taking `x` first asks of the others that they have another ID. */
  lemma OthersAreFree(consumed: set<nat>, x: Tagged, others: set<Tagged>, left: set<Tagged>)
    requires x in left && x.1.id !in consumed
    ensures (forall y :: y in others ==> y.1.id !in consumed + {x.1.id} && y in left - {x}) <==>
            && (forall y :: y in others ==> y.1.id != x.1.id)
            && (forall y :: y in {x} + others ==> y.1.id !in consumed && y in left)
  {
    if forall y :: y in others ==> y.1.id !in consumed + {x.1.id} && y in left - {x} {
      forall y | y in {x} + others ensures y.1.id !in consumed && y in left {}
    }
  }

  lemma FunctionIsOneValue(known: map<nat, Known>, seen: set<Tagged>)
    requires KnownIs(known, seen)
    ensures OneValue(seen)
  {
  }

  lemma TakeOneMeans(p: Pools, x: Tagged, seen: set<Tagged>, left: set<Tagged>)
    requires KnownIs(p.known, seen) && LeftIs(p.available, left) && left <= seen
    ensures TakeOne(p, x).Some? <==> OneValue(seen + {x}) && x.1.id !in p.consumed && x in left
    ensures TakeOne(p, x).Some? ==>
              var p' := TakeOne(p, x).value;
              && p'.consumed == p.consumed + {x.1.id}
              && KnownIs(p'.known, seen + {x}) && LeftIs(p'.available, left - {x})
  {
    RememberMeans(p.known, x, seen);
    if OneValue(seen + {x}) {
      AvailableMeans(p, x, seen, left);
      if x in left {
        OneValueBelow(seen + {x}, left);
        TakenLeft(p.available, x, left);
      }
    }
    hide LeftIs, KnownIs, OneValue, Remember;
  }

  lemma AvailableMeans(p: Pools, x: Tagged, seen: set<Tagged>, left: set<Tagged>)
    requires KnownIs(p.known, seen) && LeftIs(p.available, left) && left <= seen
    requires OneValue(seen + {x})
    ensures (x.0, x.1.id) in p.available <==> x in left
  {
    if (x.0, x.1.id) in p.available {
      var y := (x.0, p.available[(x.0, x.1.id)]);
      assert y in seen + {x} && x in seen + {x};
    }
  }

  lemma FirstTag(ys: seq<Tagged>)
    requires ys != []
    ensures TagsDiffer(ys) <==> TagsDiffer(ys[1..]) && forall y :: y in Members(ys[1..]) ==> y.1.id != ys[0].1.id
    ensures Members(ys) == {ys[0]} + Members(ys[1..])
  {
  }

  // ----- The lists as sets of controls ----------------------------------------------------------------------

  lemma {:induction false} TagIs(t: nat, items: seq<Queued>)
    ensures |Tag(t, items)| == |items| && forall i :: 0 <= i < |items| ==> Tag(t, items)[i] == (t, items[i])
  {
    if items != [] { TagIs(t, items[1..]); }
  }

  lemma TagMembers(t: nat, items: seq<Queued>, x: Tagged)
    ensures x in Tag(t, items) <==> x.0 == t && x.1 in items
  {
    TagIs(t, items);
    if x.0 == t && x.1 in items {
      var i :| 0 <= i < |items| && items[i] == x.1;
      assert Tag(t, items)[i] == x;
    }
  }

  lemma FlattenMembers(c: ControlSet, x: Tagged)
    ensures x in Flatten(c) <==> Lists(c, x)
  {
    hide Tag;
    TagMembers(0, c.Of(0), x);
    TagMembers(1, c.Of(1), x);
    TagMembers(2, c.Of(2), x);
  }

  lemma {:induction false} PathHas(records: Records, path: seq<Block>, x: Tagged)
    ensures x in FlattenPath(records, path) <==> OnPath(records, path, x)
  {
    if path != [] {
      PathHas(records, path[1..], x);
      FlattenMembers(ControlsOf(records, path[0]), x);
      OnPathStep(records, path, x);
      hide Flatten, Lists, OnPath;
    }
  }

  lemma OnPathStep(records: Records, path: seq<Block>, x: Tagged)
    requires path != []
    ensures OnPath(records, path, x) <==>
            Lists(ControlsOf(records, path[0]), x) || OnPath(records, path[1..], x)
  {
    if OnPath(records, path[1..], x) {
      var i :| 0 <= i < |path[1..]| && ListedAt(records, path[1..], i, x);
      assert ListedAt(records, path, i + 1, x);
    }
    if OnPath(records, path, x) {
      var i :| 0 <= i < |path| && ListedAt(records, path, i, x);
      if i > 0 { assert ListedAt(records, path[1..], i - 1, x); }
    }
    if Lists(ControlsOf(records, path[0]), x) { assert ListedAt(records, path, 0, x); }
  }

  lemma PathMembers(records: Records, path: seq<Block>)
    ensures forall x :: x in Members(FlattenPath(records, path)) <==> OnPath(records, path, x)
  {
    forall x ensures x in Members(FlattenPath(records, path)) <==> OnPath(records, path, x) {
      PathHas(records, path, x);
    }
  }

  lemma OfferedMembers(records: Records, q: Queue, oldPath: seq<Block>)
    ensures forall x :: x in Members(Flatten(q.pending) + FlattenPath(records, oldPath)) <==>
                        Offered(records, q, oldPath, x)
  {
    forall x ensures x in Members(Flatten(q.pending) + FlattenPath(records, oldPath)) <==>
                     Offered(records, q, oldPath, x)
    {
      FlattenMembers(q.pending, x);
      PathHas(records, oldPath, x);
      hide Flatten, FlattenPath, Lists, OnPath;
    }
  }

  /** The conflicts the maps see are those of the controls mentioned. */
  lemma ConflictMeans(records: Records, q: Queue, oldPath: seq<Block>, newPath: seq<Block>)
    ensures var offered := Members(Flatten(q.pending) + FlattenPath(records, oldPath));
            var all := offered + Members(FlattenPath(records, newPath));
            (NoConflict(records, q, oldPath, newPath) <==> OneValue(all)) && (OneValue(all) ==> OneValue(offered))
  {
    OfferedMembers(records, q, oldPath);
    PathMembers(records, newPath);
    var all := Members(Flatten(q.pending) + FlattenPath(records, oldPath)) + Members(FlattenPath(records, newPath));
    hide Flatten, FlattenPath, Offered, OnPath, Members;
    assert forall x :: x in all <==> Mentioned(records, q, oldPath, newPath, x);
  }

  // ----- Distinct IDs along a path --------------------------------------------------------------------------

  predicate Apart(a: seq<Tagged>, b: seq<Tagged>) {
    forall x, y :: x in a && y in b ==> x.1.id != y.1.id
  }

  lemma DifferConcat(a: seq<Tagged>, b: seq<Tagged>)
    ensures TagsDiffer(a + b) <==> TagsDiffer(a) && TagsDiffer(b) && Apart(a, b)
  {
    var s := a + b;
    if TagsDiffer(s) {
      forall i, j | 0 <= i < j < |a| ensures a[i].1.id != a[j].1.id { assert s[i] == a[i] && s[j] == a[j]; }
      forall i, j | 0 <= i < j < |b| ensures b[i].1.id != b[j].1.id {
        assert s[|a| + i] == b[i] && s[|a| + j] == b[j];
      }
      forall x, y | x in a && y in b ensures x.1.id != y.1.id {
        var i :| 0 <= i < |a| && a[i] == x;
        var j :| 0 <= j < |b| && b[j] == y;
        assert s[i] == x && s[|a| + j] == y;
      }
    }
  }

  lemma TagDiffers(t: nat, items: seq<Queued>)
    requires Increasing(items)
    ensures TagsDiffer(Tag(t, items))
  {
    TagIs(t, items);
  }

  lemma TagsApart(t: nat, a: seq<Queued>, u: nat, b: seq<Queued>)
    requires Disjoint(a, b)
    ensures Apart(Tag(t, a), Tag(u, b))
  {
    forall x, y | x in Tag(t, a) && y in Tag(u, b) ensures x.1.id != y.1.id {
      TagMembers(t, a, x);
      TagMembers(u, b, y);
    }
  }

  /** Within one valid control set no ID occurs twice. */
  lemma FlattenDiffers(c: ControlSet)
    requires ValidControls(c)
    ensures TagsDiffer(Flatten(c))
  {
    var a, b, d := Tag(0, c.Of(0)), Tag(1, c.Of(1)), Tag(2, c.Of(2));
    assert Increasing(c.Of(0)) && Increasing(c.Of(1)) && Increasing(c.Of(2));
    assert Disjoint(c.Of(0), c.Of(1)) && Disjoint(c.Of(0), c.Of(2)) && Disjoint(c.Of(1), c.Of(2));
    hide ValidControls, Increasing, Disjoint, Tag, TagsDiffer;
    TagDiffers(0, c.Of(0));
    TagDiffers(1, c.Of(1));
    TagDiffers(2, c.Of(2));
    TagsApart(0, c.Of(0), 1, c.Of(1));
    TagsApart(0, c.Of(0), 2, c.Of(2));
    TagsApart(1, c.Of(1), 2, c.Of(2));
    DifferConcat(a, b);
    assert Apart(a + b, d);
    DifferConcat(a + b, d);
  }

  lemma ConsumedStep(records: Records, path: seq<Block>)
    requires path != []
    ensures ConsumedOnce(records, path) <==>
            && ConsumedOnce(records, path[1..])
            && forall x, y | Lists(ControlsOf(records, path[0]), x) && OnPath(records, path[1..], y) :: x.1.id != y.1.id
  {
    var rest := path[1..];
    assert forall i, x | 0 <= i < |rest| :: ListedAt(records, rest, i, x) == ListedAt(records, path, i + 1, x);
    assert forall x :: Lists(ControlsOf(records, path[0]), x) == ListedAt(records, path, 0, x);
    hide Lists;
    if ConsumedOnce(records, path) {
      forall i, j, x, y | 0 <= i < j < |rest| && ListedAt(records, rest, i, x) && ListedAt(records, rest, j, y)
        ensures x.1.id != y.1.id
      {
        assert ListedAt(records, path, i + 1, x) && ListedAt(records, path, j + 1, y);
      }
    }
    forall i, j, x, y | 0 <= i < j < |path| && ListedAt(records, path, i, x) && ListedAt(records, path, j, y)
      ensures i > 0 ==> ListedAt(records, rest, i - 1, x)
      ensures ListedAt(records, rest, j - 1, y) && OnPath(records, rest, y)
    {}
  }

  lemma ApartMeans(records: Records, path: seq<Block>, c: ControlSet)
    ensures Apart(FlattenPath(records, path), Flatten(c)) <==>
            forall x, y | Lists(c, x) && OnPath(records, path, y) :: x.1.id != y.1.id
  {
    forall x ensures x in Flatten(c) <==> Lists(c, x) { FlattenMembers(c, x); }
    forall x ensures x in FlattenPath(records, path) <==> OnPath(records, path, x) { PathHas(records, path, x); }
    hide Flatten, FlattenPath, Lists, OnPath;
  }

  lemma {:induction false} OnceMeans(records: Records, path: seq<Block>)
    requires RecordsLoad(records, path)
    ensures TagsDiffer(FlattenPath(records, path)) <==> ConsumedOnce(records, path)
  {
    if path != [] {
      var c, rest := ControlsOf(records, path[0]), path[1..];
      assert RecordsLoad(records, rest) && ValidControls(c) by { hide AcceptedList, Marshal, Appended; }
      hide Flatten, TagsDiffer, ValidControls, RecordsLoad, ConsumedOnce, Lists, OnPath, ValidRecord, Apart;
      OnceMeans(records, rest);
      ConsumedStep(records, path);
      FlattenDiffers(c);
      DifferConcat(FlattenPath(records, rest), Flatten(c));
      ApartMeans(records, rest, c);
    }
  }

  // ----- What is left, sorted -------------------------------------------------------------------------------

  lemma LeftHasType(records: Records, q: Queue, oldPath: seq<Block>, left: set<Tagged>)
    requires forall x :: x in left ==> Offered(records, q, oldPath, x)
    ensures forall x :: x in left ==> x.0 < CONTROL_TYPES
  {
  }

  lemma SortedMember(available: map<(nat, nat), Queued>, left: set<Tagged>, t: nat)
    requires LeftIs(available, left)
    ensures Increasing(Sorted(available, t))
    ensures forall item :: item in Sorted(available, t) <==> (t, item) in left
  {
    var s := IdsOfType(available, t);
    var items := Sorted(available, t);
    AscendingLists(s);
    AscendingListsType(available, t, s);
    var ids := Ascending(s);
    assert |items| == |ids| && forall i :: 0 <= i < |items| ==> items[i] == available[(t, ids[i])];
    hide Ascending, Select, Sorted;
    forall i | 0 <= i < |ids| ensures items[i].id == ids[i] && (t, items[i]) in left {
      assert (t, ids[i]) in available;
    }
    forall item | (t, item) in left ensures item in items {
      assert (t, item.id) in available && available[(t, item.id)] == item;
      assert item.id in s;
      var i :| 0 <= i < |ids| && ids[i] == item.id;
      assert items[i] == item;
    }
  }

  lemma SortedMeans(available: map<(nat, nat), Queued>, left: set<Tagged>)
    requires LeftIs(available, left) && OneValue(left) && forall x :: x in left ==> x.0 < CONTROL_TYPES
    ensures var c := ControlSet(Sorted(available, 0), Sorted(available, 1), Sorted(available, 2));
            && Increasing(c.deposits) && Increasing(c.withdrawals) && Increasing(c.consolidations)
            && (forall x :: Lists(c, x) <==> x in left)
            && (ValidControls(c) <==> forall x :: x in left ==> GoodControl(x))
  {
    SortedMember(available, left, 0);
    SortedMember(available, left, 1);
    SortedMember(available, left, 2);
    var c := ControlSet(Sorted(available, 0), Sorted(available, 1), Sorted(available, 2));
    hide Sorted, LeftIs, Increasing;
    forall x ensures Lists(c, x) <==> x in left { assert x == (x.0, x.1); }
    ListedIsValid(c, left);
  }

  lemma ListedIsValid(c: ControlSet, left: set<Tagged>)
    requires Increasing(c.deposits) && Increasing(c.withdrawals) && Increasing(c.consolidations)
    requires OneValue(left) && forall x :: Lists(c, x) <==> x in left
    ensures ValidControls(c) <==> forall x :: x in left ==> GoodControl(x)
  {
    hide Increasing;
    assert forall t, item :: 0 <= t < CONTROL_TYPES ==> (item in c.Of(t) <==> (t, item) in left) by {
      forall t, item | 0 <= t < CONTROL_TYPES ensures item in c.Of(t) <==> (t, item) in left {
        assert Lists(c, (t, item)) <==> item in c.Of(t);
      }
    }
    forall t, u | 0 <= t < u < CONTROL_TYPES ensures Disjoint(c.Of(t), c.Of(u)) {
      forall i, j | 0 <= i < |c.Of(t)| && 0 <= j < |c.Of(u)| ensures c.Of(t)[i].id != c.Of(u)[j].id {
        assert (t, c.Of(t)[i]) in left && (u, c.Of(u)[j]) in left;
      }
    }
    if ValidControls(c) {
      forall x | x in left ensures GoodControl(x) {
        assert Lists(c, x);
        assert WellSized(x.0, c.Of(x.0)) && x.1 in c.Of(x.0);
      }
    }
    if forall x :: x in left ==> GoodControl(x) {
      forall t | 0 <= t < CONTROL_TYPES ensures WellSized(t, c.Of(t)) && Increasing(c.Of(t)) {
        forall i | 0 <= i < |c.Of(t)| ensures |c.Of(t)[i].data| == Size(t) && c.Of(t)[i].id > 0 {
          assert (t, c.Of(t)[i]) in left;
          assert GoodControl((t, c.Of(t)[i]));
        }
      }
    }
  }
}
