/** The persistent control queue: issuing IDs, filling a block, and giving controls back on a reorg. */
module RequestQueue {
  import opened Prelude
  import opened RequestCodec

  /** Deposits, withdrawals and consolidations can be queued; builder requests cannot. */
  const CONTROL_TYPES: nat := 3

  datatype Queued = Queued(id: nat, data: Bytes)

  datatype ControlSet = ControlSet(deposits: seq<Queued>, withdrawals: seq<Queued>, consolidations: seq<Queued>) {
    function Of(t: nat): seq<Queued> {
      if t == DEPOSIT then deposits
      else if t == WITHDRAWAL then withdrawals
      else if t == CONSOLIDATION then consolidations
      else []
    }
  }

  const NO_CONTROLS := ControlSet([], [], [])

  datatype Queue = Queue(nextID: nat, pending: ControlSet) {
    function Of(t: nat): seq<Queued> { pending.Of(t) }
  }

  const EMPTY_QUEUE := Queue(1, NO_CONTROLS)

  datatype Record = Record(native: RequestList, requests: RequestList, controls: ControlSet)

  predicate Increasing(items: seq<Queued>) {
    forall i, j :: 0 <= i < j < |items| ==> items[i].id < items[j].id
  }

  predicate DataSized(t: nat, items: seq<Queued>) {
    forall i :: 0 <= i < |items| ==> |items[i].data| == Size(t)
  }

  predicate WellSized(t: nat, items: seq<Queued>) {
    DataSized(t, items) && forall i :: 0 <= i < |items| ==> items[i].id > 0
  }

  predicate Disjoint(a: seq<Queued>, b: seq<Queued>) {
    forall i, j :: 0 <= i < |a| && 0 <= j < |b| ==> a[i].id != b[j].id
  }

  /** What `validateExecutionRequestControlSet` accepts. */
  predicate ValidControls(c: ControlSet) {
    && (forall t :: 0 <= t < CONTROL_TYPES ==> WellSized(t, c.Of(t)) && Increasing(c.Of(t)))
    && (forall t, u :: 0 <= t < u < CONTROL_TYPES ==> Disjoint(c.Of(t), c.Of(u)))
  }

  /** What `validateExecutionRequestQueue` accepts. */
  predicate ValidQueue(q: Queue) {
    && ValidControls(q.pending) && q.nextID > 0
    && forall t, i :: 0 <= t < CONTROL_TYPES && 0 <= i < |q.Of(t)| ==> q.Of(t)[i].id < q.nextID
  }

  /** Everything pending, as one list. */
  function AllPending(q: Queue): seq<Queued> {
    q.pending.deposits + q.pending.withdrawals + q.pending.consolidations
  }

  predicate AllSized(items: seq<Queued>, size: nat) {
    forall i :: 0 <= i < |items| ==> |items[i].data| == size
  }

  /** IDs are positive and below the next one, and none occurs twice. */
  predicate DistinctIds(items: seq<Queued>, next: nat) {
    && (forall i :: 0 <= i < |items| ==> 1 <= items[i].id < next)
    && (forall i, j :: 0 <= i < j < |items| ==> items[i].id != items[j].id)
  }

  /** A queue is valid exactly when its payloads have 192, 76 and 116 bytes, and its IDs are positive, below the next
      one, increasing within each list and distinct over the whole queue. */
  lemma ValidQueueMeans(q: Queue)
    ensures ValidQueue(q) <==>
            && AllSized(q.pending.deposits, 192) && AllSized(q.pending.withdrawals, 76)
            && AllSized(q.pending.consolidations, 116)
            && Increasing(q.pending.deposits) && Increasing(q.pending.withdrawals)
            && Increasing(q.pending.consolidations)
            && DistinctIds(AllPending(q), q.nextID) && q.nextID >= 1
  {
    if ValidQueue(q) { ValidIsDistinct(q); }
    if DistinctIds(AllPending(q), q.nextID) { DistinctIsValid(q); }
    assert q.Of(0) == q.pending.deposits && q.Of(1) == q.pending.withdrawals && q.Of(2) == q.pending.consolidations;
    hide AllPending, DistinctIds, Increasing, Disjoint;
  }

  /** Where an item of a list stands in the whole. */
  function Place(q: Queue, t: nat, i: nat): nat {
    i + (if t == 0 then 0 else if t == 1 then |q.Of(0)| else |q.Of(0)| + |q.Of(1)|)
  }

  lemma PlaceHolds(q: Queue, t: nat, i: nat)
    requires t < CONTROL_TYPES && i < |q.Of(t)|
    ensures Place(q, t, i) < |AllPending(q)| && AllPending(q)[Place(q, t, i)] == q.Of(t)[i]
  {
  }

  lemma PlaceOf(q: Queue, k: nat) returns (t: nat, i: nat)
    requires k < |AllPending(q)|
    ensures t < CONTROL_TYPES && i < |q.Of(t)| && Place(q, t, i) == k && AllPending(q)[k] == q.Of(t)[i]
  {
    var a, b := |q.Of(0)|, |q.Of(1)|;
    if k < a { t, i := 0, k; } else if k < a + b { t, i := 1, k - a; } else { t, i := 2, k - a - b; }
  }

  lemma ValidIsDistinct(q: Queue)
    requires ValidQueue(q)
    ensures DistinctIds(AllPending(q), q.nextID)
  {
    var all := AllPending(q);
    forall k | 0 <= k < |all| ensures 1 <= all[k].id < q.nextID {
      var t, i := PlaceOf(q, k);
      assert WellSized(t, q.Of(t));
    }
    forall k, l | 0 <= k < l < |all| ensures all[k].id != all[l].id {
      var t, i := PlaceOf(q, k);
      var u, j := PlaceOf(q, l);
      if t < u {
        assert Disjoint(q.pending.Of(t), q.pending.Of(u));
      } else if u < t {
        assert Disjoint(q.pending.Of(u), q.pending.Of(t));
      } else {
        assert Increasing(q.pending.Of(t));
      }
    }
  }

  lemma DistinctIsValid(q: Queue)
    requires DistinctIds(AllPending(q), q.nextID)
    ensures forall t, i :: 0 <= t < CONTROL_TYPES && 0 <= i < |q.Of(t)| ==> 1 <= q.Of(t)[i].id < q.nextID
    ensures forall t, u :: 0 <= t < u < CONTROL_TYPES ==> Disjoint(q.Of(t), q.Of(u))
  {
    forall t, i | 0 <= t < CONTROL_TYPES && 0 <= i < |q.Of(t)| ensures 1 <= q.Of(t)[i].id < q.nextID {
      PlaceHolds(q, t, i);
    }
    forall t, u | 0 <= t < u < CONTROL_TYPES ensures Disjoint(q.Of(t), q.Of(u)) {
      forall i, j | 0 <= i < |q.Of(t)| && 0 <= j < |q.Of(u)| ensures q.Of(t)[i].id != q.Of(u)[j].id {
        PlaceHolds(q, t, i);
        PlaceHolds(q, u, j);
      }
    }
  }

  // ----- Issuing --------------------------------------------------------------------------------------------

  function Add(c: ControlSet, t: nat, item: Queued): (r: ControlSet)
    requires t < CONTROL_TYPES
    ensures r.Of(t) == c.Of(t) + [item] && forall u :: u != t ==> r.Of(u) == c.Of(u)
  {
    if t == DEPOSIT then c.(deposits := c.deposits + [item])
    else if t == WITHDRAWAL then c.(withdrawals := c.withdrawals + [item])
    else c.(consolidations := c.consolidations + [item])
  }

  /** `enqueue`: wrong type or size, a full queue and an exhausted ID space are refused. */
  function Enqueue(q: Queue, t: nat, data: Bytes): Option<Queue> {
    if t >= CONTROL_TYPES || |data| != Size(t) || |q.Of(t)| >= Cap(t) || q.nextID == 0 || q.nextID >= MAX_UINT64
    then None
    else Some(Queue(q.nextID + 1, Add(q.pending, t, Queued(q.nextID, data))))
  }

  // ----- Filling a block ------------------------------------------------------------------------------------

  predicate AcceptedList(list: RequestList) {
    list.Some? ==> Accepted(list.value)
  }

  /** `verifyExecutionRequestsHash`; the header commits to `header`, and `numbered` says it carries a slot number. */
  predicate VerifyRequestsHash(header: RequestList, numbered: bool, list: RequestList) {
    && (!numbered && list.Some? ==>
          forall i :: 0 <= i < |list.value| && |list.value[i]| > 0 ==> list.value[i][0] < BUILDER_DEPOSIT)
    && header == list
  }

  function DecodeControls(t: nat, items: seq<Queued>): (es: seq<Entry>)
    requires t < TYPES && DataSized(t, items)
    ensures |es| == |items| && forall i :: 0 <= i < |es| ==> Fits(t, es[i]) && es[i] == Decode(t, items[i].data)
  {
    if items == [] then [] else [Decode(t, items[0].data)] + DecodeControls(t, items[1..])
  }

  predicate Decodable(c: ControlSet) {
    forall t :: 0 <= t < CONTROL_TYPES ==> DataSized(t, c.Of(t))
  }

  /** `appendExecutionRequestControls`: native entries first, then the controls of the same type. */
  function Appended(r: Requests, c: ControlSet): (s: Requests)
    requires Decodable(c)
    ensures forall t :: 0 <= t < CONTROL_TYPES ==> s.Of(t) == r.Of(t) + DecodeControls(t, c.Of(t))
    ensures s.Of(BUILDER_DEPOSIT) == r.Of(BUILDER_DEPOSIT) && s.Of(BUILDER_EXIT) == r.Of(BUILDER_EXIT)
  {
    assert DataSized(0, c.Of(0)) && DataSized(1, c.Of(1)) && DataSized(2, c.Of(2));
    r.(deposits := r.deposits + DecodeControls(0, c.deposits),
       withdrawals := r.withdrawals + DecodeControls(1, c.withdrawals),
       consolidations := r.consolidations + DecodeControls(2, c.consolidations))
  }

  /** What `validateExecutionRequestRecord` accepts. */
  predicate ValidRecord(r: Record) {
    && AcceptedList(r.native) && AcceptedList(r.requests) && ValidControls(r.controls)
    && (r.native.None? ==> r.requests.None? && r.controls == NO_CONTROLS)
    && (r.native.Some? ==> r.requests == Some(Marshal(Appended(Parsed(r.native.value), r.controls))))
  }

  /** How many of the queued controls of one type fit beside the native entries. */
  function Room(native: Requests, q: Queue, t: nat): nat
    requires native.WithinCaps()
  {
    if t >= CONTROL_TYPES then 0 else Min(Cap(t) - |native.Of(t)|, |q.Of(t)|)
  }

  function Taken(native: Requests, q: Queue): (c: ControlSet)
    requires native.WithinCaps()
    ensures forall t :: 0 <= t < CONTROL_TYPES ==> c.Of(t) == q.Of(t)[..Room(native, q, t)]
  {
    ControlSet(q.Of(0)[..Room(native, q, 0)], q.Of(1)[..Room(native, q, 1)], q.Of(2)[..Room(native, q, 2)])
  }

  function Left(native: Requests, q: Queue): (c: ControlSet)
    requires native.WithinCaps()
    ensures forall t :: 0 <= t < CONTROL_TYPES ==> c.Of(t) == q.Of(t)[Room(native, q, t)..]
  {
    ControlSet(q.Of(0)[Room(native, q, 0)..], q.Of(1)[Room(native, q, 1)..], q.Of(2)[Room(native, q, 2)..])
  }

  /** A prepared block: the list its header commits to, its record and the queue left over. */
  datatype Prepared = Prepared(requests: RequestList, record: Record, remaining: Queue, controlled: bool)

  /** `prepareExecutionRequestBlock`. */
  function Prepare(header: RequestList, numbered: bool, native: RequestList, q: Queue): Option<Prepared> {
    if !VerifyRequestsHash(header, numbered, native) || !AcceptedList(native) then None
    else if native.None? then Some(Prepared(None, Record(None, None, NO_CONTROLS), q, false))
    else
      var parsed := Parsed(native.value);
      assert parsed.WithinCaps();
      if Marshal(parsed) != native.value then None
      else
        var controls := Taken(parsed, q);
        var remaining := Queue(q.nextID, Left(parsed, q));
        if !Decodable(controls) then None
        else if controls == NO_CONTROLS then Some(Prepared(native, Record(native, native, controls), remaining, false))
        else
          var combined := Some(Marshal(Appended(parsed, controls)));
          Some(Prepared(combined, Record(native, combined, controls), remaining, true))
  }

  /** The number of control entries of a type in a block, read off the block alone. */
  function ControlCount(native: RequestList, requests: RequestList, t: nat): int
    requires AcceptedList(native) && AcceptedList(requests)
  {
    if t >= CONTROL_TYPES || native.None? || requests.None? then 0
    else |Parsed(requests.value).Of(t)| - |Parsed(native.value).Of(t)|
  }

  lemma AppendedIsTyped(r: Requests, c: ControlSet)
    requires Decodable(c) && r.Typed()
    ensures Appended(r, c).Typed()
  {
  }

  lemma TakenAndLeft(parsed: Requests, q: Queue)
    requires parsed.WithinCaps()
    ensures forall t :: 0 <= t < CONTROL_TYPES ==> Taken(parsed, q).Of(t) + Left(parsed, q).Of(t) == q.Of(t)
  {
  }

  /** Nothing is lost or reordered: what the block takes and what stays are the old queue, split in two. */
  lemma PrepareConserves(header: RequestList, numbered: bool, native: RequestList, q: Queue)
    requires Prepare(header, numbered, native, q).Some?
    ensures var p := Prepare(header, numbered, native, q).value;
            p.remaining.nextID == q.nextID &&
            forall t :: 0 <= t < CONTROL_TYPES ==> p.record.controls.Of(t) + p.remaining.Of(t) == q.Of(t)
  {
    hide Taken, Left, Appended, Marshal, Parsed, Decodable, VerifyRequestsHash;
    if native.Some? {
      var parsed := Parsed(native.value);
      assert parsed.WithinCaps() by { MarshalParse(native.value); }
      TakenAndLeft(parsed, q);
    }
  }

  lemma TakenAppendedInCaps(parsed: Requests, q: Queue)
    requires parsed.Typed() && parsed.WithinCaps() && Decodable(Taken(parsed, q))
    ensures var s := Appended(parsed, Taken(parsed, q)); s.Typed() && s.WithinCaps()
  {
    hide DecodeControls;
    var c := Taken(parsed, q);
    AppendedIsTyped(parsed, c);
    forall t | 0 <= t < TYPES ensures |Appended(parsed, c).Of(t)| <= Cap(t) {
      if t < CONTROL_TYPES {
        assert DataSized(t, c.Of(t));
        assert |c.Of(t)| == Room(parsed, q, t);
      }
    }
  }

  lemma NoControlsAppended(r: Requests, c: ControlSet)
    requires Decodable(c)
    ensures c == NO_CONTROLS <==> Appended(r, c) == r
  {
  }

  /** What the header commits to, decoded: native entries, then exactly the recorded controls, within the caps. */
  lemma PreparedList(header: RequestList, numbered: bool, native: RequestList, q: Queue)
    requires Prepare(header, numbered, native, q).Some? && native.Some?
    ensures var p := Prepare(header, numbered, native, q).value;
            && Accepted(native.value) && Decodable(p.record.controls)
            && p.requests.Some? && Accepted(p.requests.value) && p.requests == p.record.requests
            && Parsed(p.requests.value) == Appended(Parsed(native.value), p.record.controls)
            && p.requests.value == Marshal(Appended(Parsed(native.value), p.record.controls))
            && (p.controlled <==> p.record.controls != NO_CONTROLS)
            && (p.controlled <==> p.requests != native)
            && p.record.native == native
  {
    hide Taken, Left, Appended, Marshal, Parsed;
    var p := Prepare(header, numbered, native, q).value;
    var parsed := Parsed(native.value);
    MarshalParse(native.value);
    TakenAppendedInCaps(parsed, q);
    ParseMarshal(Appended(parsed, p.record.controls));
    NoControlsAppended(parsed, p.record.controls);
  }

  /** A block takes as many controls as the caps allow: a type is left with a queue only when the block is full of it.
      */
  lemma PreparedFillsCaps(header: RequestList, numbered: bool, native: RequestList, q: Queue, t: nat)
    requires Prepare(header, numbered, native, q).Some? && native.Some? && t < CONTROL_TYPES
    ensures var p := Prepare(header, numbered, native, q).value;
            && p.requests.Some? && Accepted(p.requests.value)
            && var n := |Parsed(p.requests.value).Of(t)|;
               n <= Cap(t) && (p.remaining.Of(t) == [] || n == Cap(t))
  {
    hide Taken, Left, Appended, Marshal, Parsed, DecodeControls;
    PreparedList(header, numbered, native, q);
    var p := Prepare(header, numbered, native, q).value;
    var parsed := Parsed(native.value);
    assert parsed.WithinCaps() by { MarshalParse(native.value); }
    assert DataSized(t, p.record.controls.Of(t));
    assert p.record.controls.Of(t) == q.Of(t)[..Room(parsed, q, t)];
    assert p.remaining.Of(t) == q.Of(t)[Room(parsed, q, t)..];
  }

  /** A valid record's control counts are read off the bytes its block commits to. */
  lemma RecordCounts(r: Record, t: nat)
    requires ValidRecord(r) && t < CONTROL_TYPES
    ensures |r.controls.Of(t)| == ControlCount(r.native, r.requests, t)
  {
    hide Accepted, Parsed, Marshal, Appended, DecodeControls;
    if r.native.Some? {
      assert Decodable(r.controls);
      ControlsAppendedCount(Parsed(r.native.value), r.controls, t);
      assert Parsed(r.native.value).Typed() by { MarshalParse(r.native.value); }
      AppendedIsTyped(Parsed(r.native.value), r.controls);
      ParseAcceptedMarshal(Appended(Parsed(r.native.value), r.controls));
    }
  }

  lemma ControlsAppendedCount(r: Requests, c: ControlSet, t: nat)
    requires Decodable(c) && t < CONTROL_TYPES
    ensures |Appended(r, c).Of(t)| == |r.Of(t)| + |c.Of(t)|
  {
    hide Appended, DecodeControls;
    assert DataSized(t, c.Of(t));
  }

  // ----- Validity -------------------------------------------------------------------------------------------

  /** `c` is made of slices of `d`, type by type. */
  predicate SliceOf(c: ControlSet, d: ControlSet) {
    forall t :: 0 <= t < CONTROL_TYPES ==>
      exists lo, hi :: 0 <= lo <= hi <= |d.Of(t)| && c.Of(t) == d.Of(t)[lo..hi]
  }

  lemma SlicesAreValid(c: ControlSet, d: ControlSet)
    requires ValidControls(d) && SliceOf(c, d)
    ensures ValidControls(c)
    ensures forall t, i :: 0 <= t < CONTROL_TYPES && 0 <= i < |c.Of(t)| ==> c.Of(t)[i] in d.Of(t)
  {
  }

  lemma TakenAndLeftAreSlices(parsed: Requests, q: Queue)
    requires parsed.WithinCaps()
    ensures SliceOf(Taken(parsed, q), q.pending) && SliceOf(Left(parsed, q), q.pending)
  {
    forall t | 0 <= t < CONTROL_TYPES
      ensures exists lo, hi :: 0 <= lo <= hi <= |q.Of(t)| && Taken(parsed, q).Of(t) == q.Of(t)[lo..hi]
      ensures exists lo, hi :: 0 <= lo <= hi <= |q.Of(t)| && Left(parsed, q).Of(t) == q.Of(t)[lo..hi]
    {
      var n := Room(parsed, q, t);
      assert Taken(parsed, q).Of(t) == q.Of(t)[0..n];
      assert Left(parsed, q).Of(t) == q.Of(t)[n..|q.Of(t)|];
    }
  }

  lemma BuilderItems(list: seq<Bytes>)
    requires Accepted(list)
    ensures (forall i :: 0 <= i < |list| && |list[i]| > 0 ==> list[i][0] < BUILDER_DEPOSIT) <==>
            Parsed(list).Of(BUILDER_DEPOSIT) == [] && Parsed(list).Of(BUILDER_EXIT) == []
  {
    PayloadOfAccepted(list, BUILDER_DEPOSIT);
    PayloadOfAccepted(list, BUILDER_EXIT);
    var r := Parsed(list);
    assert r.Of(BUILDER_DEPOSIT) == EntriesOf(list, BUILDER_DEPOSIT);
    assert r.Of(BUILDER_EXIT) == EntriesOf(list, BUILDER_EXIT);
    forall i | 0 <= i < |list| ensures list[i][0] < TYPES { assert GoodItem(list[i]); }
  }

  /** With a valid queue, preparation fails exactly when the native list or its hash is refused. */
  lemma PrepareSucceeds(header: RequestList, numbered: bool, native: RequestList, q: Queue)
    requires ValidQueue(q)
    ensures Prepare(header, numbered, native, q).Some? <==>
            AcceptedList(native) && VerifyRequestsHash(header, numbered, native)
  {
    hide Taken, Left, Marshal, Parsed, Appended, VerifyRequestsHash, Accepted;
    if native.Some? && Accepted(native.value) {
      var parsed := Parsed(native.value);
      MarshalParse(native.value);
      TakenAndLeftAreSlices(parsed, q);
      SlicesAreValid(Taken(parsed, q), q.pending);
    }
  }

  /** Every prepared block verifies against its own recorded list, its record and its queue pass their validators. */
  lemma PreparedIsValid(numbered: bool, native: RequestList, q: Queue)
    requires ValidQueue(q) && Prepare(native, numbered, native, q).Some?
    ensures var p := Prepare(native, numbered, native, q).value;
            && ValidRecord(p.record) && ValidQueue(p.remaining)
            && VerifyRequestsHash(p.requests, numbered, p.record.requests)
  {
    hide Taken, Left, Marshal, Parsed, Decodable;
    var p := Prepare(native, numbered, native, q).value;
    if native.Some? {
      var parsed := Parsed(native.value);
      PreparedList(native, numbered, native, q);
      assert parsed.WithinCaps() by { MarshalParse(native.value); }
      TakenAndLeftAreSlices(parsed, q);
      SlicesAreValid(p.record.controls, q.pending);
      SlicesAreValid(p.remaining.pending, q.pending);
      BuilderItems(native.value);
      BuilderItems(p.requests.value);
    }
  }

  // ----- The validators -------------------------------------------------------------------------------------

  function Ids(items: seq<Queued>): set<nat> {
    set i | 0 <= i < |items| :: items[i].id
  }

  /** One list of a control set, with the IDs seen before it. */
  method ValidateGroup(t: nat, items: seq<Queued>, seen: set<nat>) returns (ok: bool, seen': set<nat>)
    ensures ok <==> WellSized(t, items) && Increasing(items) && Ids(items) !! seen
    ensures ok ==> seen' == seen + Ids(items)
  {
    seen' := seen;
    var previous := 0;
    for i := 0 to |items|
      invariant WellSized(t, items[..i]) && Increasing(items[..i]) && Ids(items[..i]) !! seen
      invariant seen' == seen + Ids(items[..i])
      invariant if i == 0 then previous == 0 else previous == items[i - 1].id
    {
      var item := items[i];
      assert item.id in Ids(items) by { assert items[i].id == item.id; }
      if item.id == 0 || |item.data| != Size(t) || item.id in seen' || item.id <= previous { return false, seen'; }
      IdsSnoc(items, i);
      seen', previous := seen' + {item.id}, item.id;
    }
    assert items[..|items|] == items;
    return true, seen';
  }

  lemma IdsSnoc(items: seq<Queued>, i: nat)
    requires i < |items|
    ensures Ids(items[..i + 1]) == Ids(items[..i]) + {items[i].id}
  {
  }

  lemma DisjointIds(a: seq<Queued>, b: seq<Queued>)
    ensures Disjoint(a, b) <==> Ids(a) !! Ids(b)
  {
    if Disjoint(a, b) {
      forall x | x in Ids(a) ensures x !in Ids(b) {}
    } else {
      var i, j :| 0 <= i < |a| && 0 <= j < |b| && a[i].id == b[j].id;
      assert a[i].id in Ids(a) && b[j].id in Ids(b);
    }
  }

  /** `validateExecutionRequestControlSet` accepts exactly the valid control sets. */
  method ValidateControls(c: ControlSet) returns (ok: bool)
    ensures ok == ValidControls(c)
  {
    hide WellSized, Increasing, Disjoint, Ids;
    DisjointIds(c.Of(0), c.Of(1));
    DisjointIds(c.Of(0), c.Of(2));
    DisjointIds(c.Of(1), c.Of(2));
    var seen: set<nat>;
    ok, seen := ValidateGroup(0, c.Of(0), {});
    if !ok { return; }
    ok, seen := ValidateGroup(1, c.Of(1), seen);
    if !ok { return; }
    ok, seen := ValidateGroup(2, c.Of(2), seen);
  }

  /** `validateExecutionRequestQueue`: besides its controls, the next ID is past the largest one. */
  method ValidateQueue(q: Queue) returns (ok: bool)
    ensures ok == ValidQueue(q)
  {
    hide ValidControls;
    ok := ValidateControls(q.pending);
    if !ok { return; }
    var a := LargestId(q.Of(0), 0);
    var b := LargestId(q.Of(1), a);
    var c := LargestId(q.Of(2), b);
    ok := q.nextID != 0 && q.nextID > c;
    BelowAll(q, c);
  }

  method LargestId(items: seq<Queued>, atLeast: nat) returns (m: nat)
    ensures atLeast <= m && (forall i :: 0 <= i < |items| ==> items[i].id <= m)
    ensures m == atLeast || exists i :: 0 <= i < |items| && items[i].id == m
  {
    m := atLeast;
    for i := 0 to |items|
      invariant atLeast <= m && forall j :: 0 <= j < i ==> items[j].id <= m
      invariant m == atLeast || exists j :: 0 <= j < i && items[j].id == m
    {
      if items[i].id > m { m := items[i].id; }
    }
  }

  /** Being past the largest ID is being past every ID. */
  lemma BelowAll(q: Queue, m: nat)
    requires forall t, i :: 0 <= t < CONTROL_TYPES && 0 <= i < |q.Of(t)| ==> q.Of(t)[i].id <= m
    requires m == 0 || exists t, i :: 0 <= t < CONTROL_TYPES && 0 <= i < |q.Of(t)| && q.Of(t)[i].id == m
    ensures q.nextID > 0 ==>
              ((forall t, i :: 0 <= t < CONTROL_TYPES && 0 <= i < |q.Of(t)| ==> q.Of(t)[i].id < q.nextID) <==>
               q.nextID > m)
  {
  }

  // ----- Filling a block, as code ---------------------------------------------------------------------------

  /** `verifyExecutionRequestsHash`. */
  method VerifyHash(header: RequestList, numbered: bool, list: RequestList) returns (ok: bool)
    ensures ok == VerifyRequestsHash(header, numbered, list)
  {
    if !numbered && list.Some? {
      for i := 0 to |list.value|
        invariant forall j :: 0 <= j < i && |list.value[j]| > 0 ==> list.value[j][0] < BUILDER_DEPOSIT
      {
        if |list.value[i]| > 0 && list.value[i][0] >= BUILDER_DEPOSIT { return false; }
      }
    }
    return header == list;
  }

  method DecodeItems(t: nat, items: seq<Queued>) returns (es: Option<seq<Entry>>)
    requires t < CONTROL_TYPES
    ensures es.Some? <==> DataSized(t, items)
    ensures es.Some? ==> es.value == DecodeControls(t, items)
  {
    hide Decode;
    var done := [];
    for i := 0 to |items|
      invariant DataSized(t, items[..i]) && done == DecodeControls(t, items[..i])
    {
      if |items[i].data| != Size(t) { return None; }
      DecodeSnoc(t, items[..i], items[i]);
      assert items[..i + 1] == items[..i] + [items[i]];
      done := done + [Decode(t, items[i].data)];
    }
    assert items[..|items|] == items;
    return Some(done);
  }

  lemma {:induction false} DecodeSnoc(t: nat, items: seq<Queued>, item: Queued)
    requires t < TYPES && DataSized(t, items) && |item.data| == Size(t)
    ensures DataSized(t, items + [item])
    ensures DecodeControls(t, items + [item]) == DecodeControls(t, items) + [Decode(t, item.data)]
  {
    hide Decode;
    if items == [] {
      assert items + [item] == [item] && [item][1..] == [];
    } else {
      assert (items + [item])[1..] == items[1..] + [item];
      DecodeSnoc(t, items[1..], item);
    }
  }

  /** `appendExecutionRequestControls`. */
  method AppendControls(r: Requests, c: ControlSet) returns (s: Option<Requests>)
    ensures s.Some? <==> Decodable(c)
    ensures s.Some? ==> s.value == Appended(r, c)
  {
    hide DecodeControls, DataSized;
    var deposits := DecodeItems(0, c.deposits);
    if deposits.None? { assert !DataSized(0, c.Of(0)); return None; }
    var withdrawals := DecodeItems(1, c.withdrawals);
    if withdrawals.None? { assert !DataSized(1, c.Of(1)); return None; }
    var consolidations := DecodeItems(2, c.consolidations);
    if consolidations.None? { assert !DataSized(2, c.Of(2)); return None; }
    return Some(r.(deposits := r.deposits + deposits.value, withdrawals := r.withdrawals + withdrawals.value,
                   consolidations := r.consolidations + consolidations.value));
  }

  lemma TypedHasCredentials(r: Requests)
    requires r.Typed()
    ensures !BadCredentials(r.deposits)
  {
    forall i | 0 <= i < |r.deposits| && r.deposits[i].Deposit? ensures |r.deposits[i].credentials| == 32 {
      assert Fits(DEPOSIT, r.Of(DEPOSIT)[i]);
    }
  }

  /** Parsing succeeds exactly on accepted lists, and a missing list parses to nothing. */
  method ParseList(list: RequestList) returns (ok: bool, parsed: Requests)
    ensures ok == AcceptedList(list)
    ensures ok && list.Some? ==> parsed == Parsed(list.value) && parsed.Typed() && parsed.WithinCaps()
  {
    hide Accepted, Parsed;
    if list.None? { return true, NO_REQUESTS; }
    var r := ParseExecutionRequests(list.value);
    if r.None? { return false, NO_REQUESTS; }
    MarshalParse(list.value);
    return true, r.value;
  }

  /** What fits beside the native entries, and what stays queued. */
  method SplitQueue(parsed: Requests, q: Queue) returns (controls: ControlSet, remaining: ControlSet)
    requires parsed.WithinCaps()
    ensures controls == Taken(parsed, q) && remaining == Left(parsed, q)
  {
    hide Taken, Left;
    assert |parsed.Of(0)| <= Cap(0) && |parsed.Of(1)| <= Cap(1) && |parsed.Of(2)| <= Cap(2);
    var deposits := Min(Cap(0) - |parsed.Of(0)|, |q.Of(0)|);
    var withdrawals := Min(Cap(1) - |parsed.Of(1)|, |q.Of(1)|);
    var consolidations := Min(Cap(2) - |parsed.Of(2)|, |q.Of(2)|);
    controls := ControlSet(q.Of(0)[..deposits], q.Of(1)[..withdrawals], q.Of(2)[..consolidations]);
    remaining := ControlSet(q.Of(0)[deposits..], q.Of(1)[withdrawals..], q.Of(2)[consolidations..]);
    TakenIs(parsed, q, controls, remaining);
  }

  /** The bytes of the native entries with the controls appended. */
  method Combine(parsed: Requests, controls: ControlSet) returns (bytes: Option<seq<Bytes>>)
    requires parsed.Typed()
    ensures bytes.Some? <==> Decodable(controls)
    ensures bytes.Some? ==> bytes.value == Marshal(Appended(parsed, controls))
  {
    hide Marshal, Appended, Decodable;
    var appended := AppendControls(parsed, controls);
    if appended.None? { return None; }
    AppendedIsTyped(parsed, controls);
    TypedHasCredentials(appended.value);
    bytes := MarshalExecutionRequests(appended.value);
  }

  /** `prepareExecutionRequestBlock` in the source's steps. */
  method PrepareBlock(header: RequestList, numbered: bool, native: RequestList, q: Queue) returns (r: Option<Prepared>)
    ensures r == Prepare(header, numbered, native, q)
  {
    hide Accepted, Parsed, Marshal, Appended, Taken, Left, Decodable, VerifyRequestsHash;
    var verified := VerifyHash(header, numbered, native);
    if !verified { return None; }
    var ok, parsed := ParseList(native);
    if !ok { return None; }
    if native.None? { return Some(Prepared(None, Record(None, None, NO_CONTROLS), q, false)); }
    TypedHasCredentials(parsed);
    var roundTrip := MarshalExecutionRequests(parsed);
    if roundTrip.value != native.value { return None; }
    var controls, left := SplitQueue(parsed, q);
    var combined := Combine(parsed, controls);
    if combined.None? { return None; }
    if |controls.deposits| + |controls.withdrawals| + |controls.consolidations| == 0 {
      return Some(Prepared(native, Record(native, native, controls), Queue(q.nextID, left), false));
    }
    return Some(Prepared(combined, Record(native, combined, controls), Queue(q.nextID, left), true));
  }

  lemma TakenIs(parsed: Requests, q: Queue, controls: ControlSet, remaining: ControlSet)
    requires parsed.WithinCaps()
    requires forall t :: 0 <= t < CONTROL_TYPES ==> controls.Of(t) == q.Of(t)[..Room(parsed, q, t)]
    requires forall t :: 0 <= t < CONTROL_TYPES ==> remaining.Of(t) == q.Of(t)[Room(parsed, q, t)..]
    ensures controls == Taken(parsed, q) && remaining == Left(parsed, q)
  {
    assert controls.Of(0) == Taken(parsed, q).Of(0) && controls.Of(1) == Taken(parsed, q).Of(1);
    assert controls.Of(2) == Taken(parsed, q).Of(2);
    assert remaining.Of(0) == Left(parsed, q).Of(0) && remaining.Of(1) == Left(parsed, q).Of(1);
    assert remaining.Of(2) == Left(parsed, q).Of(2);
  }

  /** `validateExecutionRequestRecord` in the source's steps. */
  method ValidateRecord(r: Record) returns (ok: bool)
    ensures ok == ValidRecord(r)
  {
    hide Accepted, Parsed, Marshal, Appended, ValidControls, Decodable;
    if r.requests.Some? && r.native.None? { return false; }
    var parses, native := ParseList(r.native);
    if !parses { return false; }
    var parsesAll, _ := ParseList(r.requests);
    if !parsesAll { return false; }
    var valid := ValidateControls(r.controls);
    if !valid { return false; }
    if r.native.None? { return |r.controls.deposits| + |r.controls.withdrawals| + |r.controls.consolidations| == 0; }
    ValidIsDecodable(r.controls);
    var combined := Combine(native, r.controls);
    return r.requests == combined;
  }

  lemma ValidIsDecodable(c: ControlSet)
    requires ValidControls(c)
    ensures Decodable(c)
  {
  }
}
