/** The bounded, persisted event log. */
module EventLog {
  import opened Prelude
  import opened Reconcile
  import opened NodeState

  datatype Logged = Logged(revision: nat, event: Event)

  /** `disk` is the event namespace of the database, by revision. */
  datatype Log = Log(capacity: nat, next: nat, events: seq<Logged>, disk: map<nat, Logged>)

  datatype Plan = Plan(events: seq<Logged>, deletes: set<nat>, next: nat)

  /** Events with consecutive revisions from `first` on. */
  function Numbered(events: seq<Event>, first: nat): (r: seq<Logged>)
    ensures |r| == |events| && forall i :: 0 <= i < |r| ==> r[i] == Logged(first + i, events[i])
  {
    seq(|events|, i requires 0 <= i < |events| => Logged(first + i, events[i]))
  }

  function Newest<T>(items: seq<T>, capacity: nat): seq<T> {
    if |items| > capacity then items[|items| - capacity..] else items
  }

  function Revisions(events: seq<Logged>): set<nat> {
    set i | 0 <= i < |events| :: events[i].revision
  }

  /** The evicted prefix of the retained list. */
  function Evicted(events: seq<Logged>, capacity: nat): seq<Logged> {
    if |events| > capacity then events[..|events| - capacity] else []
  }

  function PlanOf(log: Log, events: seq<Event>): Option<Plan> {
    if log.next + |events| > MAX_UINT64 && events != [] then None
    else
      var added := Numbered(events, log.next);
      Some(Plan(added, Revisions(Evicted(log.events + added, log.capacity)), log.next + |events|))
  }

  function Put(disk: map<nat, Logged>, events: seq<Logged>): map<nat, Logged> {
    if events == [] then disk
    else Put(disk, events[..|events| - 1])[events[|events| - 1].revision := events[|events| - 1]]
  }

  /** The batch of a commit: puts, then deletes. */
  function Written(disk: map<nat, Logged>, plan: Plan): map<nat, Logged> {
    Put(disk, plan.events) - plan.deletes
  }

  /** `apply`: nothing at all when nothing was published. */
  function Applied(log: Log, plan: Plan): Log {
    if plan.events == [] then log
    else log.(next := plan.next, events := Newest(log.events + plan.events, log.capacity))
  }

  /** A commit that publishes `events`; a refused one changes nothing. */
  function Publish(log: Log, events: seq<Event>): Log {
    var plan := PlanOf(log, events);
    if plan.None? then log else Applied(log, plan.value).(disk := Written(log.disk, plan.value))
  }

  ghost function InOrder(disk: map<nat, Logged>, keys: seq<nat>): (r: seq<Logged>)
    requires forall k :: k in keys ==> k in disk
    ensures |r| == |keys| && forall i :: 0 <= i < |r| ==> r[i] == disk[keys[i]]
  {
    if keys == [] then [] else [disk[keys[0]]] + InOrder(disk, keys[1..])
  }

  /** The next revision after a load. */
  function NextAfter(events: seq<Logged>): nat {
    if events == [] then 1
    else
      var before, last := NextAfter(events[..|events| - 1]), events[|events| - 1].revision;
      if last >= before then last + 1 else before
  }

  /** `newEventLog`: the iterator runs in key order, which is revision order. */
  ghost function Reopened(capacity: nat, disk: map<nat, Logged>): Log {
    AscendingLists(disk.Keys);
    var events := InOrder(disk, Ascending(disk.Keys));
    Log(capacity, NextAfter(events), events, disk)
  }

  // ----- Whole runs -----------------------------------------------------------------------------------------

  /** `disk` holds exactly `events`. */
  ghost predicate Persists(disk: map<nat, Logged>, events: seq<Logged>) {
    disk.Keys == Revisions(events) && forall i :: 0 <= i < |events| ==> disk[events[i].revision] == events[i]
  }

  predicate RunsFrom(events: seq<Logged>, first: nat) {
    forall i :: 0 <= i < |events| ==> events[i].revision == first + i
  }

  /** Revisions run consecutively up to `next`. */
  predicate Consecutive(log: Log) {
    |log.events| < log.next <= MAX_UINT64 && RunsFrom(log.events, log.next - |log.events|)
  }

  /** The log is exact for the history `all`: the newest events, consecutively numbered, in memory and on disk. */
  ghost predicate Exact(log: Log, all: seq<Event>) {
    && log.capacity > 0 && log.next == |all| + 1 <= MAX_UINT64
    && log.events == Newest(Numbered(all, 1), log.capacity)
    && Persists(log.disk, log.events)
  }

  lemma ExactIsConsecutive(log: Log, all: seq<Event>)
    requires Exact(log, all)
    ensures Consecutive(log) && |log.events| <= log.capacity && (log.events == [] <==> all == [])
  {
  }

  lemma {:induction false} PutMeaning(disk: map<nat, Logged>, events: seq<Logged>, first: nat)
    requires RunsFrom(events, first)
    ensures forall k :: k in Put(disk, events) <==> k in disk || first <= k < first + |events|
    ensures forall i :: 0 <= i < |events| ==> Put(disk, events)[first + i] == events[i]
    ensures forall k :: k in disk && !(first <= k < first + |events|) ==> Put(disk, events)[k] == disk[k]
  {
    if events != [] {
      var init := events[..|events| - 1];
      PutMeaning(disk, init, first);
      assert forall i :: 0 <= i < |init| ==> events[i] == init[i];
    }
  }

  lemma RangeOfRevisions(events: seq<Logged>, first: nat)
    requires RunsFrom(events, first)
    ensures forall k :: k in Revisions(events) <==> first <= k < first + |events|
  {
    forall k | first <= k < first + |events| ensures k in Revisions(events) {
      assert events[k - first].revision == k;
    }
  }

  lemma RunsConcat(a: seq<Logged>, b: seq<Logged>, first: nat, n: nat)
    requires RunsFrom(a, first) && RunsFrom(b, first + |a|) && n <= |a + b|
    ensures RunsFrom((a + b)[..n], first) && RunsFrom((a + b)[n..], first + n)
  {
  }

  /** Putting a later run and deleting the first `n` of both leaves exactly the rest. */
  lemma BatchLeavesRest(disk: map<nat, Logged>, held: seq<Logged>, added: seq<Logged>, first: nat, n: nat)
    requires RunsFrom(held, first) && RunsFrom(added, first + |held|) && Persists(disk, held) && n <= |held + added|
    ensures Persists(Put(disk, added) - Revisions((held + added)[..n]), (held + added)[n..])
  {
    var all := held + added;
    RunsConcat(held, added, first, n);
    RangeOfRevisions(held, first);
    RangeOfRevisions(all[..n], first);
    RangeOfRevisions(all[n..], first + n);
    PutMeaning(disk, added, first + |held|);
    var disk', rest := Put(disk, added) - Revisions(all[..n]), all[n..];
    hide Put, Revisions;
    forall i | 0 <= i < |rest| ensures rest[i].revision in disk' && disk'[rest[i].revision] == rest[i] {
      assert rest[i] == all[n + i] && rest[i].revision == first + n + i;
      if n + i < |held| {
        assert all[n + i] == held[n + i];
      } else {
        assert all[n + i] == added[n + i - |held|];
      }
    }
    assert disk'.Keys == Revisions(rest);
  }

  lemma NewestIsRest(events: seq<Logged>, capacity: nat)
    ensures var n := |Evicted(events, capacity)|;
            n <= |events| && Evicted(events, capacity) == events[..n] && Newest(events, capacity) == events[n..]
  {
  }

  /** A commit keeps disk and memory equal, whatever it publishes, exactly unless it publishes nothing on an over-full
      log. */
  lemma PublishPersistsIff(log: Log, events: seq<Event>)
    requires Consecutive(log) && Persists(log.disk, log.events) && PlanOf(log, events).Some?
    ensures var log' := Publish(log, events);
            && Consecutive(log')
            && (Persists(log'.disk, log'.events) <==> events != [] || |log.events| <= log.capacity)
  {
    var plan := PlanOf(log, events).value;
    var all, first := log.events + plan.events, log.next - |log.events|;
    var n := |Evicted(all, log.capacity)|;
    NewestIsRest(all, log.capacity);
    assert RunsFrom(plan.events, log.next);
    BatchLeavesRest(log.disk, log.events, plan.events, first, n);
    RunsConcat(log.events, plan.events, first, n);
    hide Persists, Put, Revisions;
    if events == [] {
      assert all == log.events;
      if n == 0 {
        assert all[n..] == all;
      } else {
        EmptyCommitLoses(log, n);
      }
    }
  }

  lemma EmptyCommitLoses(log: Log, n: nat)
    requires Consecutive(log) && 0 < n <= |log.events|
    ensures !Persists(Put(log.disk, []) - Revisions(log.events[..n]), log.events)
  {
    var first := log.next - |log.events|;
    RangeOfRevisions(log.events, first);
    RangeOfRevisions(log.events[..n], first);
    assert first in Revisions(log.events) && first in Revisions(log.events[..n]);
  }

  lemma NumberedConcat(a: seq<Event>, b: seq<Event>, first: nat)
    ensures Numbered(a + b, first) == Numbered(a, first) + Numbered(b, first + |a|)
  {
  }

  lemma NewestOfNewest<T>(a: seq<T>, b: seq<T>, capacity: nat)
    ensures Newest(Newest(a, capacity) + b, capacity) == Newest(a + b, capacity)
  {
  }

  /** Publishing keeps the log exact, even when one commit holds more than the capacity. */
  lemma PublishIsExact(log: Log, all: seq<Event>, events: seq<Event>)
    requires Exact(log, all)
    ensures Exact(Publish(log, events), if PlanOf(log, events).Some? then all + events else all)
  {
    hide Persists, Written, Consecutive, Numbered;
    ExactIsConsecutive(log, all);
    if PlanOf(log, events).Some? {
      PublishPersistsIff(log, events);
      NumberedConcat(all, events, 1);
      NewestOfNewest(Numbered(all, 1), Numbered(events, log.next), log.capacity);
      if events == [] {
        assert all + events == all;
        NumberedNone(log.next);
      }
    }
  }

  /** What an exact log holds, revision by revision. */
  lemma ExactContents(log: Log, all: seq<Event>, i: nat)
    requires Exact(log, all)
    ensures log.next == |all| + 1 && |log.events| == if |all| > log.capacity then log.capacity else |all|
    ensures i < |log.events| ==>
              var at := |all| - |log.events| + i; log.events[i] == Logged(at + 1, all[at])
  {
    hide Persists;
  }

  /** A commit is refused exactly when its events would take the revision past 64 bits. */
  lemma CommitIsRefusedIff(log: Log, all: seq<Event>, events: seq<Event>)
    requires Exact(log, all)
    ensures PlanOf(log, events).Some? <==> events == [] || |all| + 1 + |events| <= 0xFFFF_FFFF_FFFF_FFFF
    ensures PlanOf(log, events).None? ==> Publish(log, events) == log
  {
    ExactContents(log, all, 0);
    hide Exact, Numbered, Revisions, Evicted;
  }

  lemma NumberedNone(first: nat)
    ensures Numbered([], first) == []
  {
  }

  lemma EmptyIsExact(capacity: nat)
    requires capacity > 0
    ensures Exact(Log(capacity, 1, [], map[]), [])
  {
  }

  lemma RevisionsAscend(log: Log)
    requires Consecutive(log)
    ensures Ascending(Revisions(log.events)) ==
            seq(|log.events|, i requires 0 <= i < |log.events| => log.events[i].revision)
  {
    var ids := seq(|log.events|, i requires 0 <= i < |log.events| => log.events[i].revision);
    var first := log.next - |log.events|;
    RangeOfRevisions(log.events, first);
    forall x ensures x in Revisions(log.events) <==> x in ids {
      if x in Revisions(log.events) { assert ids[x - first] == x; }
    }
    AscendingIsUnique(Revisions(log.events), ids);
  }

  lemma {:induction false} NextAfterConsecutive(events: seq<Logged>, first: nat)
    requires 0 < first && RunsFrom(events, first)
    ensures NextAfter(events) == if events == [] then 1 else first + |events|
  {
    if events != [] {
      var init := events[..|events| - 1];
      assert forall i :: 0 <= i < |init| ==> init[i] == events[i];
      NextAfterConsecutive(init, first);
    }
  }

  lemma LoadedInOrder(log: Log)
    requires Consecutive(log) && Persists(log.disk, log.events)
    ensures forall k :: k in Ascending(log.disk.Keys) ==> k in log.disk
    ensures InOrder(log.disk, Ascending(log.disk.Keys)) == log.events
  {
    hide Ascending, InOrder;
    AscendingLists(log.disk.Keys);
    RevisionsAscend(log);
    var keys := Ascending(log.disk.Keys);
    var loaded := InOrder(log.disk, keys);
    forall i | 0 <= i < |log.events| ensures loaded[i] == log.events[i] {
      assert keys[i] == log.events[i].revision;
    }
  }

  /** Reloading rebuilds the log, under whatever capacity is configured by then. */
  lemma ReopenRebuilds(log: Log, capacity: nat)
    requires Consecutive(log) && Persists(log.disk, log.events) && (log.events == [] ==> log.next == 1)
    ensures Reopened(capacity, log.disk) == log.(capacity := capacity)
  {
    hide Ascending, InOrder, Persists;
    LoadedInOrder(log);
    NextAfterConsecutive(log.events, log.next - |log.events|);
  }

  lemma ReopenIsSame(log: Log, all: seq<Event>)
    requires Exact(log, all)
    ensures Reopened(log.capacity, log.disk) == log
  {
    hide Reopened, Persists;
    ExactIsConsecutive(log, all);
    ReopenRebuilds(log, log.capacity);
  }

  lemma OverfullDiverges(a: Event, b: Event, disk: map<nat, Logged>)
    ensures var log := Log(1, 3, [Logged(1, a), Logged(2, b)], disk);
            Publish(log, []).events == log.events && 1 !in Publish(log, []).disk
  {
    var log := Log(1, 3, [Logged(1, a), Logged(2, b)], disk);
    assert Numbered([], 3) == [] && log.events + [] == log.events;
    RangeOfRevisions(Evicted(log.events, 1), 1);
  }

  /** A log of capacity 2 publishes two events and is reopened with capacity 1: the next commit without events deletes
      on disk the first event, which memory keeps. */
  lemma EmptyCommitCanDiverge(a: Event, b: Event)
    ensures var log := Reopened(1, Publish(Log(2, 1, [], map[]), [a, b]).disk);
            && log.events == [Logged(1, a), Logged(2, b)]
            && Publish(log, []).events == log.events && 1 !in Publish(log, []).disk
  {
    var first := Log(2, 1, [], map[]);
    EmptyIsExact(2);
    PublishIsExact(first, [], [a, b]);
    var full := Publish(first, [a, b]);
    assert [] + [a, b] == [a, b] && Numbered([a, b], 1) == [Logged(1, a), Logged(2, b)];
    ExactIsConsecutive(full, [a, b]);
    ReopenRebuilds(full, 1);
    OverfullDiverges(a, b, full.disk);
    hide Reopened, Publish, Consecutive, Persists, Numbered;
    assert Reopened(1, full.disk) == Log(1, 3, [Logged(1, a), Logged(2, b)], full.disk);
  }

  datatype Use = Commits(events: seq<Event>) | Reopens

  ghost function RunLog(log: Log, uses: seq<Use>): Log
    decreases |uses|
  {
    if uses == [] then log
    else RunLog(if uses[0].Commits? then Publish(log, uses[0].events) else Reopened(log.capacity, log.disk), uses[1..])
  }

  /** The events of the commits that fitted, in order. */
  ghost function Told(log: Log, uses: seq<Use>): seq<Event>
    decreases |uses|
  {
    if uses == [] then []
    else if uses[0].Reopens? then Told(Reopened(log.capacity, log.disk), uses[1..])
    else
      var rest := Told(Publish(log, uses[0].events), uses[1..]);
      if PlanOf(log, uses[0].events).Some? then uses[0].events + rest else rest
  }

  /** Through any commits and restarts the log stays exact for the history of what was committed. */
  lemma {:induction false} RunIsExact(log: Log, all: seq<Event>, uses: seq<Use>)
    requires Exact(log, all)
    ensures Exact(RunLog(log, uses), all + Told(log, uses))
    decreases |uses|
  {
    hide Exact, Publish, Reopened, PlanOf;
    if uses == [] {
      assert all + [] == all;
    } else if uses[0].Reopens? {
      ReopenIsSame(log, all);
      RunIsExact(log, all, uses[1..]);
    } else {
      var events := uses[0].events;
      PublishIsExact(log, all, events);
      var log' := Publish(log, events);
      if PlanOf(log, events).Some? {
        RunIsExact(log', all + events, uses[1..]);
        assert all + events + Told(log', uses[1..]) == all + (events + Told(log', uses[1..]));
      } else {
        RunIsExact(log', all, uses[1..]);
      }
    }
  }

  /** From the first start on: what is retained is the newest part of everything committed, on disk as in memory. */
  lemma FirstRunIsExact(capacity: nat, uses: seq<Use>)
    requires capacity > 0
    ensures var first := Log(capacity, 1, [], map[]); Exact(RunLog(first, uses), Told(first, uses))
  {
    hide Exact, RunLog, Told;
    var first := Log(capacity, 1, [], map[]);
    EmptyIsExact(capacity);
    RunIsExact(first, [], uses);
    assert [] + Told(first, uses) == Told(first, uses);
  }

  // ----- Reading --------------------------------------------------------------------------------------------

  /** `sinceLocked`; `None` is the gap error. The comparison adds in 64 bits. */
  function Since(log: Log, revision: nat): Option<seq<Logged>>
    requires revision <= MAX_UINT64
  {
    var after := if revision == MAX_UINT64 then 0 else revision + 1;
    if log.events == [] then Some([])
    else if after < log.events[0].revision then None
    else Some(Later(log.events, revision))
  }

  function Later(events: seq<Logged>, revision: nat): seq<Logged> {
    if events != [] && events[0].revision <= revision then Later(events[1..], revision) else events
  }

  lemma {:induction false} LaterIsSuffix(events: seq<Logged>, first: nat, revision: nat)
    requires RunsFrom(events, first)
    ensures Later(events, revision) ==
            if revision < first then events
            else if revision - first + 1 <= |events| then events[revision - first + 1..] else []
  {
    if events != [] && first <= revision {
      assert forall i :: 0 <= i < |events[1..]| ==> events[1..][i] == events[i + 1];
      LaterIsSuffix(events[1..], first + 1, revision);
    }
  }

  /** What a reader at `revision` has not seen. */
  function Unseen(all: seq<Event>, revision: nat): seq<Logged> {
    if revision <= |all| then Numbered(all, 1)[revision..] else []
  }

  lemma UnseenIsSuffix(all: seq<Event>, capacity: nat, revision: nat)
    requires |all| <= revision + capacity
    ensures var events := Newest(Numbered(all, 1), capacity);
            var n := revision - (|all| - |events|);
            n >= 0 && Unseen(all, revision) == if n <= |events| then events[n..] else []
  {
  }

  /** Below 2^64 - 1 a reader gets exactly the events after its revision, or a gap precisely when one of them has been
      evicted; at 2^64 - 1 it gets a gap whenever anything was ever published. */
  lemma SinceIsExact(log: Log, all: seq<Event>, revision: nat)
    requires Exact(log, all) && revision <= MAX_UINT64
    ensures revision < MAX_UINT64 ==>
              Since(log, revision) ==
              if |Unseen(all, revision)| <= log.capacity then Some(Unseen(all, revision)) else None
    ensures revision == MAX_UINT64 ==> (Since(log, revision).None? <==> all != [])
  {
    hide Persists, Later, Numbered;
    ExactIsConsecutive(log, all);
    LaterIsSuffix(log.events, log.next - |log.events|, revision);
    if revision < MAX_UINT64 && |all| <= revision + log.capacity {
      UnseenIsSuffix(all, log.capacity, revision);
    }
  }

  // ----- The object -----------------------------------------------------------------------------------------

  /** Keys in the order of a database iterator. */
  method Iterate(keys: set<nat>) returns (r: seq<nat>)
    ensures r == Ascending(keys)
  {
    hide Ascending;
    r := [];
    var rest := keys;
    while rest != {}
      invariant r + Ascending(rest) == Ascending(keys)
      decreases |rest|
    {
      ghost var m := AscendingCons(rest);
      var key :| key in rest && forall x :: x in rest ==> key <= x;
      assert r + ([key] + Ascending(rest - {key})) == r + [key] + Ascending(rest - {key});
      r, rest := r + [key], rest - {key};
    }
    NoneAscending();
  }

  lemma NoneAscending()
    ensures Ascending({}) == []
  {
  }

  /** The load loop of `newEventLog`. */
  method Load(disk: map<nat, Logged>) returns (events: seq<Logged>, next: nat)
    ensures Reopened(0, disk).events == events && Reopened(0, disk).next == next
  {
    hide Ascending, InOrder;
    AscendingLists(disk.Keys);
    var keys := Iterate(disk.Keys);
    ghost var all := InOrder(disk, keys);
    events, next := [], 1;
    for i := 0 to |keys|
      invariant events == all[..i] && next == NextAfter(all[..i])
    {
      assert all[i] == disk[keys[i]];
      assert all[..i + 1][..i] == all[..i] && all[..i + 1] == all[..i] + [all[i]];
      events := events + [disk[keys[i]]];
      if disk[keys[i]].revision >= next { next := disk[keys[i]].revision + 1; }
    }
    assert all[..|keys|] == all;
  }

  class EventLog {
    const capacity: nat
    var next: nat
    var events: seq<Logged>
    var disk: map<nat, Logged>
    ghost var all: seq<Event>

    function View(): Log
      reads this
    {
      Log(capacity, next, events, disk)
    }

    ghost predicate Valid()
      reads this
    {
      Exact(View(), all)
    }

    constructor (capacity: nat)
      requires capacity > 0
      ensures Valid() && all == [] && this.capacity == capacity
    {
      this.capacity, next, events, disk, all := capacity, 1, [], map[], [];
    }

    /** `newEventLog` on a database an exact log left behind. */
    constructor Open(capacity: nat, disk: map<nat, Logged>, ghost before: Log, ghost history: seq<Event>)
      requires Exact(before, history) && before.capacity == capacity && before.disk == disk
      ensures Valid() && View() == before && all == history
    {
      var loaded, following := Load(disk);
      this.capacity, this.disk, next, events, all := capacity, disk, following, loaded, history;
      new;
      hide Exact;
      ReopenIsSame(before, history);
    }

    /** `plan`: numbers the events and lists the revisions that fall out. */
    method PlanEvents(published: seq<Event>) returns (plan: Option<Plan>)
      ensures plan == PlanOf(View(), published)
    {
      var numbered, upTo := [], next;
      for i := 0 to |published|
        invariant numbered == Numbered(published[..i], next) && upTo == next + i
        invariant i > 0 ==> upTo <= MAX_UINT64
      {
        if upTo >= MAX_UINT64 { return None; }
        numbered, upTo := numbered + [Logged(upTo, published[i])], upTo + 1;
      }
      assert published[..|published|] == published;
      var retained := events + numbered;
      var deletes := {};
      assert Revisions([]) == {};
      if |retained| > capacity {
        var remove := |retained| - capacity;
        for i := 0 to remove
          invariant deletes == Revisions(retained[..i])
        {
          assert retained[..i + 1] == retained[..i] + [retained[i]];
          RevisionsSnoc(retained[..i], retained[i]);
          deletes := deletes + {retained[i].revision};
        }
      }
      return Some(Plan(numbered, deletes, upTo));
    }

    /** One commit: plan, write the batch, apply. */
    method Commit(published: seq<Event>) returns (ok: bool)
      requires Valid()
      modifies this
      ensures Valid() && View() == Publish(old(View()), published)
      ensures ok <==> PlanOf(old(View()), published).Some?
      ensures all == if ok then old(all) + published else old(all)
    {
      hide Exact;
      PublishIsExact(View(), all, published);
      var planned := PlanEvents(published);
      if planned.None? { return false; }
      var plan := planned.value;
      disk := Written(disk, plan);
      all := all + published;
      if plan.events != [] {
        next := plan.next;
        events := events + plan.events;
        if |events| > capacity { events := events[|events| - capacity..]; }
      }
      return true;
    }

    method ReadSince(revision: nat) returns (r: Option<seq<Logged>>)
      requires Valid() && revision <= MAX_UINT64
      ensures revision < MAX_UINT64 ==>
                r == if |Unseen(all, revision)| <= capacity then Some(Unseen(all, revision)) else None
      ensures revision == MAX_UINT64 ==> (r.None? <==> all != [])
    {
      hide Exact;
      SinceIsExact(View(), all, revision);
      if events == [] { return Some([]); }
      var after := if revision == MAX_UINT64 then 0 else revision + 1;
      if after < events[0].revision { return None; }
      var index := 0;
      assert events[0..] == events;
      while index < |events| && events[index].revision <= revision
        invariant 0 <= index <= |events| && Later(events, revision) == Later(events[index..], revision)
      {
        assert events[index..][1..] == events[index + 1..];
        index := index + 1;
      }
      return Some(events[index..]);
    }
  }

  lemma RevisionsSnoc(events: seq<Logged>, e: Logged)
    ensures Revisions(events + [e]) == Revisions(events) + {e.revision}
  {
    var r := events + [e];
    forall k | k in Revisions(events) + {e.revision} ensures k in Revisions(r) {
      if k in Revisions(events) {
        var i :| 0 <= i < |events| && events[i].revision == k;
        assert r[i].revision == k;
      } else {
        assert r[|events|].revision == k;
      }
    }
  }
}
