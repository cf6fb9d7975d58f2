/** The transaction pool: arrival numbers, and the selection of executable transactions. */
module TxPool {
  import opened Prelude

  type Address = nat

  /** Equal hashes mean equal transactions. */
  datatype Tx = Tx(hash: nat, sender: Address, nonce: nat, feeCap: nat, tipCap: nat)

  type Slot = (Address, nat)

  datatype Pool = Pool(pending: map<Slot, Tx>, arrival: map<nat, nat>, nextArrival: nat)

  const EMPTY := Pool(map[], map[], 0)

  // ----- Adding and including -------------------------------------------------------------------------------

  /** The replacement rule: at least 110% of both caps, rounded down. */
  predicate Underpriced(tx: Tx, previous: Tx) {
    tx.feeCap < previous.feeCap * 110 / 100 || tx.tipCap < previous.tipCap * 110 / 100
  }

  /** `addTransaction` after validation; `None` is an error. Validation refuses the last nonce. */
  function Add(p: Pool, tx: Tx): Option<Pool> {
    var at := (tx.sender, tx.nonce);
    if tx.nonce >= MAX_UINT64 then None
    else if at in p.pending then
      var previous := p.pending[at];
      if Underpriced(tx, previous) then None
      else
        var inherited := if previous.hash in p.arrival then p.arrival[previous.hash] else 0;
        Some(Pool(p.pending[at := tx], p.arrival[tx.hash := inherited] - {previous.hash}, p.nextArrival))
    else Some(Pool(p.pending[at := tx], p.arrival[tx.hash := p.nextArrival + 1], p.nextArrival + 1))
  }

  function IncludeOne(p: Pool, tx: Tx): Pool {
    Pool(p.pending - {(tx.sender, tx.nonce)}, p.arrival - {tx.hash}, p.nextArrival)
  }

  /** The pool part of `applyCanonicalBlock`. */
  function Include(p: Pool, txs: seq<Tx>): Pool {
    if txs == [] then p else IncludeOne(Include(p, txs[..|txs| - 1]), txs[|txs| - 1])
  }

  /** Every pending transaction stands in its slot, under a hash of its own. */
  predicate Placed(p: Pool) {
    && (forall k: Slot :: k in p.pending ==> p.pending[k].sender == k.0 && p.pending[k].nonce == k.1 < MAX_UINT64)
    && (forall k: Slot, l: Slot ::
          k in p.pending && l in p.pending && p.pending[k].hash == p.pending[l].hash ==> k == l)
  }

  /** A placed pool whose pending transactions all have an arrival number, no two the same. */
  predicate Sound(p: Pool) {
    && Placed(p)
    && (forall k: Slot :: k in p.pending ==> p.pending[k].hash in p.arrival)
    && (forall h :: h in p.arrival ==> 1 <= p.arrival[h] <= p.nextArrival)
    && (forall g, h :: g in p.arrival && h in p.arrival && p.arrival[g] == p.arrival[h] ==> g == h)
  }

  /** A hash names one transaction: what the pool holds under that hash is this transaction. */
  predicate Genuine(p: Pool, tx: Tx) {
    forall k: Slot :: k in p.pending && p.pending[k].hash == tx.hash ==> p.pending[k] == tx
  }

  /** The one way an accepted transaction spoils the pool: a pending transaction sent again, with caps so small that
      110% rounds down to 100%. */
  predicate Resent(p: Pool, tx: Tx) {
    (tx.sender, tx.nonce) in p.pending && p.pending[(tx.sender, tx.nonce)] == tx && tx.feeCap < 10 && tx.tipCap < 10
  }

  /** An identical transaction is accepted again exactly when both caps are below 10. */
  lemma ResentIsAccepted(p: Pool, tx: Tx)
    requires (tx.sender, tx.nonce) in p.pending && p.pending[(tx.sender, tx.nonce)] == tx && tx.nonce < MAX_UINT64
    ensures Add(p, tx).Some? <==> tx.feeCap < 10 && tx.tipCap < 10
  {
  }

  /** Every accepted transaction, a pending one sent again included, leaves the pool placed. */
  lemma AddKeepsPlaced(p: Pool, tx: Tx)
    requires Placed(p) && Genuine(p, tx) && Add(p, tx).Some?
    ensures Placed(Add(p, tx).value)
  {
    NotElsewhere(p, tx);
  }

  /** Adding keeps the pool sound exactly unless it re-adds a pending transaction. */
  lemma AddKeepsSoundIff(p: Pool, tx: Tx)
    requires Sound(p) && Genuine(p, tx) && Add(p, tx).Some?
    ensures Sound(Add(p, tx).value) <==> !Resent(p, tx)
  {
    var at := (tx.sender, tx.nonce);
    var q := Add(p, tx).value;
    assert q.pending[at] == tx;
    if at in p.pending {
      var previous := p.pending[at];
      if previous.hash == tx.hash {
        assert previous == tx && tx.hash !in q.arrival;
        ResentIsAccepted(p, tx);
      } else {
        ReplaceIsSound(p, tx);
      }
    } else {
      FreshIsSound(p, tx);
    }
  }

  lemma ReplaceIsSound(p: Pool, tx: Tx)
    requires Sound(p) && Genuine(p, tx) && Add(p, tx).Some?
    requires (tx.sender, tx.nonce) in p.pending && p.pending[(tx.sender, tx.nonce)].hash != tx.hash
    ensures Sound(Add(p, tx).value)
  {
    AddKeepsPlaced(p, tx);
    NotElsewhere(p, tx);
    var q := Add(p, tx).value;
    assert forall k: Slot :: k in q.pending && k != (tx.sender, tx.nonce) ==>
      k in p.pending && q.pending[k] == p.pending[k];
  }

  lemma NotElsewhere(p: Pool, tx: Tx)
    requires Placed(p) && Genuine(p, tx)
    ensures forall k: Slot :: k in p.pending && p.pending[k].hash == tx.hash ==> k == (tx.sender, tx.nonce)
  {
  }

  lemma FreshIsSound(p: Pool, tx: Tx)
    requires Sound(p) && Genuine(p, tx) && Add(p, tx).Some? && (tx.sender, tx.nonce) !in p.pending
    ensures Sound(Add(p, tx).value)
  {
    NotElsewhere(p, tx);
  }

  lemma IncludeOneKeepsSound(p: Pool, tx: Tx)
    requires Sound(p) && Genuine(p, tx)
    ensures Sound(IncludeOne(p, tx))
  {
  }

  lemma {:induction false} IncludeKeepsSound(p: Pool, txs: seq<Tx>)
    requires Sound(p) && forall i :: 0 <= i < |txs| ==> Genuine(p, txs[i])
    ensures Sound(Include(p, txs)) && Include(p, txs).pending.Keys <= p.pending.Keys
    ensures forall k: Slot :: k in Include(p, txs).pending ==> Include(p, txs).pending[k] == p.pending[k]
  {
    if txs != [] {
      IncludeKeepsSound(p, txs[..|txs| - 1]);
      IncludeOneKeepsSound(Include(p, txs[..|txs| - 1]), txs[|txs| - 1]);
    }
  }

  lemma {:induction false} IncludeKeepsPlaced(p: Pool, txs: seq<Tx>)
    requires Placed(p)
    ensures Placed(Include(p, txs))
  {
    if txs != [] { IncludeKeepsPlaced(p, txs[..|txs| - 1]); }
  }

  // ----- What adding and including do -----------------------------------------------------------------------

  /** A transaction is accepted exactly below the last nonce and, over a pending one, at no less than 110% of both its
      caps rounded down. It then stands in its slot, and no other slot changes. */
  lemma AddIsAcceptedIff(p: Pool, tx: Tx)
    ensures var at, r := (tx.sender, tx.nonce), Add(p, tx);
            && (r.Some? <==>
                  && tx.nonce < 0xFFFF_FFFF_FFFF_FFFF
                  && (at in p.pending ==>
                        && 110 * p.pending[at].feeCap < 100 * (tx.feeCap + 1)
                        && 110 * p.pending[at].tipCap < 100 * (tx.tipCap + 1)))
            && (r.Some? ==> r.value.pending == p.pending[at := tx])
  {
  }

  /** A transaction in a free slot takes the next arrival number; one that replaces another takes over its number, and
      the number of the replaced one is gone. All other numbers stay. */
  lemma AddNumbers(p: Pool, tx: Tx)
    requires Add(p, tx).Some?
    ensures var at, q := (tx.sender, tx.nonce), Add(p, tx).value;
            if at !in p.pending then
              && q.nextArrival == p.nextArrival + 1 && tx.hash in q.arrival && q.arrival[tx.hash] == q.nextArrival
              && (forall h :: h != tx.hash ==> (h in q.arrival <==> h in p.arrival))
              && (forall h :: h != tx.hash && h in p.arrival ==> q.arrival[h] == p.arrival[h])
            else
              var gone := p.pending[at].hash;
              && q.nextArrival == p.nextArrival && gone !in q.arrival
              && (tx.hash != gone ==>
                    tx.hash in q.arrival && q.arrival[tx.hash] == if gone in p.arrival then p.arrival[gone] else 0)
              && (forall h :: h != tx.hash && h != gone ==> (h in q.arrival <==> h in p.arrival))
              && (forall h :: h != tx.hash && h != gone && h in p.arrival ==> q.arrival[h] == p.arrival[h])
  {
  }

  /** Some transaction of the list stands in the slot. */
  predicate Includes(txs: seq<Tx>, k: Slot) {
    exists i :: 0 <= i < |txs| && k == (txs[i].sender, txs[i].nonce)
  }

  predicate IncludesHash(txs: seq<Tx>, hash: nat) {
    exists i :: 0 <= i < |txs| && txs[i].hash == hash
  }

  /** A block takes exactly the slots and the arrival numbers of its transactions out of the pool. */
  lemma {:induction false} IncludeTakesExactly(p: Pool, txs: seq<Tx>)
    ensures var q := Include(p, txs);
            && (forall k: Slot :: k in q.pending <==> k in p.pending && !Includes(txs, k))
            && (forall k: Slot :: k in q.pending ==> q.pending[k] == p.pending[k])
            && (forall h: nat :: h in q.arrival <==> h in p.arrival && !IncludesHash(txs, h))
            && (forall h: nat :: h in q.arrival ==> q.arrival[h] == p.arrival[h])
            && q.nextArrival == p.nextArrival
  {
    if txs != [] {
      var init, last := txs[..|txs| - 1], txs[|txs| - 1];
      IncludeTakesExactly(p, init);
      assert txs == init + [last];
      forall k: Slot ensures Includes(txs, k) <==> Includes(init, k) || k == (last.sender, last.nonce) {
        if Includes(init, k) {
          var i :| 0 <= i < |init| && k == (init[i].sender, init[i].nonce);
          assert txs[i] == init[i];
        }
        if k == (last.sender, last.nonce) { assert txs[|init|] == last; }
      }
      forall h: nat ensures IncludesHash(txs, h) <==> IncludesHash(init, h) || h == last.hash {
        if IncludesHash(init, h) { var i :| 0 <= i < |init| && init[i].hash == h; assert txs[i] == init[i]; }
        if h == last.hash { assert txs[|init|] == last; }
      }
      hide Includes, IncludesHash;
    }
  }

  // ----- The selection order --------------------------------------------------------------------------------

  /** `fifo`, or by effective tip at a base fee. */
  datatype Order = Fifo | Fees(baseFee: nat)

  /** What a block producer earns per gas: the tip cap, or what the fee cap leaves of it above the base fee. */
  function EffectiveTip(tx: Tx, baseFee: nat): (tip: int)
    ensures tip <= tx.tipCap && baseFee + tip <= tx.feeCap && (tip == tx.tipCap || baseFee + tip == tx.feeCap)
  {
    if tx.feeCap - baseFee < tx.tipCap then tx.feeCap - baseFee else tx.tipCap
  }

  /** `transactionBefore`; a missing arrival number reads as zero. */
  predicate Before(p: Pool, order: Order, left: Tx, right: Tx) {
    match order
    case Fifo => ArrivalOf(p, left) < ArrivalOf(p, right)
    case Fees(baseFee) =>
      var l, r := EffectiveTip(left, baseFee), EffectiveTip(right, baseFee);
      if l != r then l > r else left.hash < right.hash
  }

  function ArrivalOf(p: Pool, tx: Tx): nat {
    if tx.hash in p.arrival then p.arrival[tx.hash] else 0
  }

  /** No two senders have pending transactions with the same place in the order: only `fifo` can tie them. */
  predicate Untied(p: Pool, order: Order) {
    order.Fifo? ==>
      forall k: Slot, l: Slot :: k in p.pending && l in p.pending && k.0 != l.0 ==>
        ArrivalOf(p, p.pending[k]) != ArrivalOf(p, p.pending[l])
  }

  lemma SoundIsUntied(p: Pool, order: Order)
    requires Sound(p)
    ensures Untied(p, order)
  {
  }

  /** Between different senders one transaction comes before the other, in every pool without ties. */
  lemma BeforeIsTotal(p: Pool, order: Order, k: Slot, l: Slot)
    requires Placed(p) && Untied(p, order) && k in p.pending && l in p.pending && k.0 != l.0
    ensures Before(p, order, p.pending[k], p.pending[l]) <==> !Before(p, order, p.pending[l], p.pending[k])
  {
  }

  lemma BeforeIsTransitive(p: Pool, order: Order, a: Tx, b: Tx, c: Tx)
    requires Before(p, order, a, b) && Before(p, order, b, c)
    ensures Before(p, order, a, c)
  {
  }

  // ----- Selection ------------------------------------------------------------------------------------------

  type Nonces = map<Address, nat>

  predicate Offers(p: Pool, next: Nonces, a: Address) {
    a in next && (a, next[a]) in p.pending
  }

  function Offer(p: Pool, next: Nonces, a: Address): Tx
    requires Offers(p, next, a)
  {
    p.pending[(a, next[a])]
  }

  /** A sender in `among` whose next transaction no other sender's comes before. */
  predicate First(p: Pool, order: Order, next: Nonces, among: set<Address>, a: Address) {
    a in among && Offers(p, next, a) &&
    forall b :: b in among && Offers(p, next, b) ==> !Before(p, order, Offer(p, next, b), Offer(p, next, a))
  }

  /** What comes first: under `fifo` an offer that arrived first, otherwise one with the highest effective tip and,
      among equals, the lowest hash. */
  lemma FirstIsBest(p: Pool, order: Order, next: Nonces, a: Address, b: Address)
    requires First(p, order, next, next.Keys, a) && Offers(p, next, b)
    ensures var x, y := Offer(p, next, a), Offer(p, next, b);
            match order
            case Fifo =>
              && ArrivalOf(p, x) <= ArrivalOf(p, y)
              && (x.hash in p.arrival && y.hash in p.arrival ==> p.arrival[x.hash] <= p.arrival[y.hash])
              && (x.hash in p.arrival && y.hash !in p.arrival ==> p.arrival[x.hash] == 0)
            case Fees(fee) =>
              && EffectiveTip(x, fee) >= EffectiveTip(y, fee)
              && (EffectiveTip(x, fee) == EffectiveTip(y, fee) ==> x.hash <= y.hash)
  {
    assert !Before(p, order, Offer(p, next, b), Offer(p, next, a));
  }

  lemma FirstIsUnique(p: Pool, order: Order, next: Nonces, a: Address, b: Address)
    requires Placed(p) && Untied(p, order)
    requires First(p, order, next, next.Keys, a) && First(p, order, next, next.Keys, b)
    ensures a == b
  {
    if a != b { BeforeIsTotal(p, order, (a, next[a]), (b, next[b])); }
  }

  /** The transactions not yet passed. */
  function Ahead(p: Pool, next: Nonces): set<Slot> {
    set k: Slot | k in p.pending && k.0 in next && k.1 >= next[k.0]
  }

  /** The reference selection: while some sender offers one, take a first one and move its sender on. */
  ghost predicate Selects(p: Pool, order: Order, next: Nonces, result: seq<Tx>)
    decreases |result|
  {
    if result == [] then forall a :: !Offers(p, next, a)
    else
      var a := result[0].sender;
      && First(p, order, next, next.Keys, a) && result[0] == Offer(p, next, a)
      && Selects(p, order, next[a := next[a] + 1], result[1..])
  }

  function SendersOf(p: Pool): set<Address> {
    set k: Slot | k in p.pending :: k.0
  }

  /** One pass over the senders, in any order. */
  method ChooseFirst(p: Pool, order: Order, next: Nonces) returns (chosen: Option<Address>)
    ensures chosen.Some? ==> First(p, order, next, next.Keys, chosen.value)
    ensures chosen.None? ==> forall a :: !Offers(p, next, a)
  {
    chosen := None;
    var rest := next.Keys;
    ghost var seen: set<Address> := {};
    while rest != {}
      invariant rest <= next.Keys && seen == next.Keys - rest
      invariant chosen.Some? ==> First(p, order, next, seen, chosen.value)
      invariant chosen.None? ==> forall a :: a in seen ==> !Offers(p, next, a)
      decreases |rest|
    {
      var a :| a in rest;
      if (a, next[a]) in p.pending {
        var candidate := p.pending[(a, next[a])];
        if chosen.None? {
          chosen := Some(a);
        } else {
          var selected := p.pending[(chosen.value, next[chosen.value])];
          if Before(p, order, candidate, selected) {
            Overtakes(p, order, next, seen, chosen.value, a);
            chosen := Some(a);
          }
        }
      }
      rest, seen := rest - {a}, seen + {a};
    }
  }

  lemma Overtakes(p: Pool, order: Order, next: Nonces, seen: set<Address>, leader: Address, a: Address)
    requires First(p, order, next, seen, leader) && Offers(p, next, a)
    requires Before(p, order, Offer(p, next, a), Offer(p, next, leader))
    ensures First(p, order, next, seen + {a}, a)
  {
    forall b | b in seen + {a} && Offers(p, next, b)
      ensures !Before(p, order, Offer(p, next, b), Offer(p, next, a))
    {
      if Before(p, order, Offer(p, next, b), Offer(p, next, a)) {
        BeforeIsTransitive(p, order, Offer(p, next, b), Offer(p, next, a), Offer(p, next, leader));
      }
    }
  }

  /** A selection begun with some picks and finished from where they leave the nonces. */
  ghost predicate SelectsFrom(p: Pool, order: Order, next: Nonces, picks: seq<Tx>, later: Nonces)
    decreases |picks|
  {
    if picks == [] then next == later
    else
      var a := picks[0].sender;
      && First(p, order, next, next.Keys, a) && picks[0] == Offer(p, next, a)
      && SelectsFrom(p, order, next[a := next[a] + 1], picks[1..], later)
  }

  lemma {:induction false} SelectsMore(p: Pool, order: Order, next: Nonces, picks: seq<Tx>, later: Nonces, tx: Tx)
    requires SelectsFrom(p, order, next, picks, later)
    requires First(p, order, later, later.Keys, tx.sender) && tx == Offer(p, later, tx.sender)
    ensures SelectsFrom(p, order, next, picks + [tx], later[tx.sender := later[tx.sender] + 1])
    decreases |picks|
  {
    hide First, Offers, Offer;
    if picks == [] {
      assert [tx][1..] == [] && picks + [tx] == [tx];
    } else {
      var a := picks[0].sender;
      FirstOffers(p, order, next, a);
      assert (picks + [tx])[1..] == picks[1..] + [tx];
      SelectsMore(p, order, next[a := next[a] + 1], picks[1..], later, tx);
    }
  }

  lemma {:induction false} SelectsAll(p: Pool, order: Order, next: Nonces, picks: seq<Tx>, later: Nonces)
    requires SelectsFrom(p, order, next, picks, later) && forall a :: !Offers(p, later, a)
    ensures Selects(p, order, next, picks)
    decreases |picks|
  {
    if picks != [] {
      var a := picks[0].sender;
      SelectsAll(p, order, next[a := next[a] + 1], picks[1..], later);
    }
  }

  /** `executableTransactions`: whatever order the maps are iterated in, and ties or not, every sender's part of the
      result is its gap-free run. */
  method ExecutableTransactions(p: Pool, order: Order, state: Address -> nat) returns (result: seq<Tx>)
    requires Placed(p)
    ensures Selects(p, order, map a | a in SendersOf(p) :: state(a), result)
    ensures forall a :: FromSender(result, a) == GapFree(p, a, state(a))
  {
    hide First, Offers;
    var next := map a | a in SendersOf(p) :: state(a);
    ghost var start := next;
    result := [];
    while true
      invariant SelectsFrom(p, order, start, result, next)
      decreases Ahead(p, next)
    {
      var chosen := ChooseFirst(p, order, next);
      if chosen.None? { break; }
      var a := chosen.value;
      FirstOffers(p, order, next, a);
      var selected := p.pending[(a, next[a])];
      SelectsMore(p, order, start, result, next, selected);
      assert (a, next[a]) in Ahead(p, next) && (a, next[a]) !in Ahead(p, next[a := next[a] + 1]);
      result := result + [selected];
      next := next[a := next[a] + 1];
    }
    SelectsAll(p, order, start, result, next);
    forall a: Address ensures FromSender(result, a) == GapFree(p, a, state(a)) {
      SelectedIsGapFree(p, order, start, result, a);
      if (a, state(a)) in p.pending { assert (a, state(a)).0 in SendersOf(p); }
    }
  }

  lemma FirstOffers(p: Pool, order: Order, next: Nonces, a: Address)
    requires First(p, order, next, next.Keys, a)
    ensures a in next && Offers(p, next, a) && (a, next[a]) in p.pending
  {
  }

  // ----- What is selected -----------------------------------------------------------------------------------

  function FromSender(txs: seq<Tx>, a: Address): seq<Tx> {
    if txs == [] then []
    else if txs[0].sender == a then [txs[0]] + FromSender(txs[1..], a)
    else FromSender(txs[1..], a)
  }

  /** The pending transactions of a sender from a nonce up to the first gap. */
  function GapFree(p: Pool, a: Address, nonce: nat): seq<Tx>
    decreases Ahead(p, map[a := nonce])
  {
    if (a, nonce) !in p.pending then []
    else
      assert (a, nonce) in Ahead(p, map[a := nonce]) && (a, nonce) !in Ahead(p, map[a := nonce + 1]);
      [p.pending[(a, nonce)]] + GapFree(p, a, nonce + 1)
  }

  lemma {:induction false} GapFreeFrom(p: Pool, a: Address, nonce: nat, n: nat)
    requires n <= |GapFree(p, a, nonce)|
    ensures GapFree(p, a, nonce)[n..] == GapFree(p, a, nonce + n)
    decreases n
  {
    if n > 0 { GapFreeFrom(p, a, nonce + 1, n - 1); }
  }

  lemma {:induction false} GapFreeAt(p: Pool, a: Address, nonce: nat, i: nat)
    requires Placed(p) && i < |GapFree(p, a, nonce)|
    ensures GapFree(p, a, nonce)[i].sender == a && GapFree(p, a, nonce)[i].nonce == nonce + i
    decreases i
  {
    if i > 0 { GapFreeAt(p, a, nonce + 1, i - 1); }
  }

  lemma {:induction false} GapFreeFrame(p: Pool, q: Pool, a: Address, nonce: nat)
    requires forall m: nat :: m >= nonce ==> ((a, m) in p.pending <==> (a, m) in q.pending)
    requires forall m: nat :: m >= nonce && (a, m) in p.pending ==> p.pending[(a, m)] == q.pending[(a, m)]
    ensures GapFree(p, a, nonce) == GapFree(q, a, nonce)
    decreases Ahead(p, map[a := nonce])
  {
    if (a, nonce) in p.pending {
      assert (a, nonce) in Ahead(p, map[a := nonce]) && (a, nonce) !in Ahead(p, map[a := nonce + 1]);
      GapFreeFrame(p, q, a, nonce + 1);
    }
  }

  lemma {:induction false} InFromSender(txs: seq<Tx>, i: nat)
    requires i < |txs|
    ensures txs[i] in FromSender(txs, txs[i].sender)
  {
    if i > 0 { InFromSender(txs[1..], i - 1); }
  }

  /** When a block takes the first transactions of a sender's gap-free run, the run from the advanced nonce is the rest:
      mining never drops a transaction that could still be executed. */
  lemma IncludedRunLeavesRest(p: Pool, txs: seq<Tx>, a: Address, nonce: nat, n: nat)
    requires Placed(p) && n <= |GapFree(p, a, nonce)| && FromSender(txs, a) == GapFree(p, a, nonce)[..n]
    ensures GapFree(Include(p, txs), a, nonce + n) == GapFree(p, a, nonce)[n..]
  {
    var q, run := Include(p, txs), GapFree(p, a, nonce);
    IncludeTakesExactly(p, txs);
    GapFreeFrom(p, a, nonce, n);
    forall m: nat | m >= nonce + n ensures !Includes(txs, (a, m)) {
      if Includes(txs, (a, m)) {
        var i :| 0 <= i < |txs| && (a, m) == (txs[i].sender, txs[i].nonce);
        InFromSender(txs, i);
        var j :| 0 <= j < n && run[..n][j] == txs[i];
        GapFreeAt(p, a, nonce, j);
      }
    }
    hide Includes, IncludesHash;
    GapFreeFrame(p, q, a, nonce + n);
  }

  /** For every sender a selection holds exactly its maximal gap-free run of nonces, in nonce order. */
  lemma {:induction false} SelectedIsGapFree(p: Pool, order: Order, next: Nonces, result: seq<Tx>, a: Address)
    requires Placed(p) && Selects(p, order, next, result)
    ensures FromSender(result, a) == if a in next then GapFree(p, a, next[a]) else []
    decreases |result|
  {
    if result == [] {
      assert !Offers(p, next, a);
    } else {
      var first := result[0].sender;
      SelectedIsGapFree(p, order, next[first := next[first] + 1], result[1..], a);
    }
  }

  lemma {:induction false} SomeFirst(p: Pool, order: Order, next: Nonces, among: set<Address>) returns (first: Address)
    requires among <= next.Keys && exists a :: a in among && Offers(p, next, a)
    ensures First(p, order, next, among, first)
    decreases among
  {
    var a :| a in among && Offers(p, next, a);
    var rest := among - {a};
    if exists b :: b in rest && Offers(p, next, b) {
      var b := SomeFirst(p, order, next, rest);
      assert among == rest + {a};
      if Before(p, order, Offer(p, next, a), Offer(p, next, b)) {
        Overtakes(p, order, next, rest, b, a);
        first := a;
      } else {
        first := b;
      }
    } else {
      first := a;
    }
  }

  /** Something can always be selected, from any first offer. */
  lemma {:induction false} SomeSelection(p: Pool, order: Order, next: Nonces) returns (result: seq<Tx>)
    requires Placed(p)
    ensures Selects(p, order, next, result)
    decreases Ahead(p, next)
  {
    if x :| Offers(p, next, x) {
      var a := SomeFirst(p, order, next, next.Keys);
      result := SelectionFrom(p, order, next, a);
    } else {
      result := [];
    }
  }

  lemma {:induction false} SelectionFrom(p: Pool, order: Order, next: Nonces, a: Address) returns (result: seq<Tx>)
    requires Placed(p) && First(p, order, next, next.Keys, a)
    ensures Selects(p, order, next, result) && result != [] && result[0] == Offer(p, next, a)
    decreases Ahead(p, next), 0
  {
    var next' := next[a := next[a] + 1];
    assert (a, next[a]) in Ahead(p, next) && (a, next[a]) !in Ahead(p, next');
    var rest := SomeSelection(p, order, next');
    result := [Offer(p, next, a)] + rest;
    assert result[1..] == rest;
  }

  lemma {:induction false} SelectionIsUnique(p: Pool, order: Order, next: Nonces, left: seq<Tx>, right: seq<Tx>)
    requires Placed(p) && Untied(p, order) && Selects(p, order, next, left) && Selects(p, order, next, right)
    ensures left == right
    decreases |left|
  {
    hide Placed, Untied, First;
    if left == [] || right == [] {
      if left != [] { FirstOffers(p, order, next, left[0].sender); }
      if right != [] { FirstOffers(p, order, next, right[0].sender); }
    } else {
      var a := left[0].sender;
      FirstOffers(p, order, next, a);
      FirstIsUnique(p, order, next, a, right[0].sender);
      SelectionIsUnique(p, order, next[a := next[a] + 1], left[1..], right[1..]);
      assert left == [left[0]] + left[1..] && right == [right[0]] + right[1..];
    }
  }

  /** Whatever the state nonces of the senders, there is one selection only. */
  ghost predicate Determined(p: Pool, order: Order) {
    forall next: Nonces, left: seq<Tx>, right: seq<Tx> ::
      next.Keys == SendersOf(p) && Selects(p, order, next, left) && Selects(p, order, next, right) ==> left == right
  }

  /** The selection does not depend on the order the maps are iterated in exactly when no two senders tie: always by
      fees, and under `fifo` when no two of them read the same arrival number. */
  lemma DeterminedIffUntied(p: Pool, order: Order)
    requires Placed(p)
    ensures Determined(p, order) <==> Untied(p, order)
  {
    hide Placed, Selects;
    if Untied(p, order) {
      forall next: Nonces, left: seq<Tx>, right: seq<Tx> |
        Selects(p, order, next, left) && Selects(p, order, next, right)
        ensures left == right
      {
        SelectionIsUnique(p, order, next, left, right);
      }
    } else {
      var k: Slot, l: Slot :| k in p.pending && l in p.pending && k.0 != l.0 &&
        ArrivalOf(p, p.pending[k]) == ArrivalOf(p, p.pending[l]);
      var left, right, next := TieDecides(p, k, l);
      assert !Determined(p, order);
    }
  }

  /** Two senders that tie: the state nonces for which either may come first. */
  lemma TieDecides(p: Pool, k: Slot, l: Slot) returns (left: seq<Tx>, right: seq<Tx>, next: Nonces)
    requires Placed(p) && k in p.pending && l in p.pending && k.0 != l.0
    requires ArrivalOf(p, p.pending[k]) == ArrivalOf(p, p.pending[l])
    ensures next.Keys == SendersOf(p) && Selects(p, Fifo, next, left) && Selects(p, Fifo, next, right) && left != right
  {
    next := map a | a in SendersOf(p) :: if a == k.0 then k.1 else if a == l.0 then l.1 else MAX_UINT64;
    assert Offers(p, next, k.0) && Offers(p, next, l.0);
    forall b | Offers(p, next, b) ensures b == k.0 || b == l.0 {}
    left := SelectionFrom(p, Fifo, next, k.0);
    right := SelectionFrom(p, Fifo, next, l.0);
  }

  // ----- Runs of the pool -----------------------------------------------------------------------------------

  datatype Use = Sends(tx: Tx) | Mines(txs: seq<Tx>)

  function Used(p: Pool, use: Use): Pool {
    match use
    case Sends(tx) => if Add(p, tx).Some? then Add(p, tx).value else p
    case Mines(txs) => Include(p, txs)
  }

  predicate GenuineUse(p: Pool, use: Use) {
    match use
    case Sends(tx) => Genuine(p, tx)
    case Mines(txs) => forall i :: 0 <= i < |txs| ==> Genuine(p, txs[i])
  }

  /** Hashes are genuine, and no pending transaction is accepted a second time. */
  predicate Plain(p: Pool, use: Use) {
    GenuineUse(p, use) && (use.Sends? ==> !Resent(p, use.tx))
  }

  function RunPool(p: Pool, uses: seq<Use>): Pool
    decreases |uses|
  {
    if uses == [] then p else RunPool(Used(p, uses[0]), uses[1..])
  }

  predicate GenuineRun(p: Pool, uses: seq<Use>)
    decreases |uses|
  {
    uses == [] || (GenuineUse(p, uses[0]) && GenuineRun(Used(p, uses[0]), uses[1..]))
  }

  predicate PlainRun(p: Pool, uses: seq<Use>)
    decreases |uses|
  {
    uses == [] || (Plain(p, uses[0]) && PlainRun(Used(p, uses[0]), uses[1..]))
  }

  /** Whatever is sent and mined, every sender's pending transactions stay in their slots, so what is selected for each
      sender never depends on the order or on ties. */
  lemma {:induction false} RunIsPlaced(p: Pool, uses: seq<Use>)
    requires Placed(p) && GenuineRun(p, uses)
    ensures Placed(RunPool(p, uses))
    decreases |uses|
  {
    hide Placed, Add, Genuine;
    if uses != [] {
      match uses[0] {
        case Sends(tx) => if Add(p, tx).Some? { AddKeepsPlaced(p, tx); }
        case Mines(txs) => IncludeKeepsPlaced(p, txs);
      }
      RunIsPlaced(Used(p, uses[0]), uses[1..]);
    }
  }

  /** Arrival numbers stay distinct through adds, replacements and inclusions, so the selection stays determined. */
  lemma {:induction false} RunIsSound(p: Pool, uses: seq<Use>)
    requires Sound(p) && PlainRun(p, uses)
    ensures Sound(RunPool(p, uses))
    decreases |uses|
  {
    hide Sound, Add, Genuine, Resent;
    if uses != [] {
      match uses[0] {
        case Sends(tx) => if Add(p, tx).Some? { AddKeepsSoundIff(p, tx); }
        case Mines(txs) => IncludeKeepsSound(p, txs);
      }
      RunIsSound(Used(p, uses[0]), uses[1..]);
    }
  }

  /** Two cheap transactions, each sent twice, lose their arrival numbers: the pool is still placed, but under `fifo`
      either may be selected first. */
  lemma ResendingTiesFifo()
    ensures var t, u := Tx(1, 1, 0, 5, 5), Tx(2, 2, 0, 5, 5);
            var p := RunPool(EMPTY, [Sends(t), Sends(u), Sends(t), Sends(u)]);
            && Placed(p) && !Determined(p, Fifo) && Determined(p, Fees(0))
            && Selects(p, Fifo, map[1 := 0, 2 := 0], [t, u]) && Selects(p, Fifo, map[1 := 0, 2 := 0], [u, t])
  {
    TiedRun();
    TiedSelections();
    var p := Pool(map[(1, 0) := Tx(1, 1, 0, 5, 5), (2, 0) := Tx(2, 2, 0, 5, 5)], map[], 2);
    assert ArrivalOf(p, p.pending[(1, 0)]) == ArrivalOf(p, p.pending[(2, 0)]);
    DeterminedIffUntied(p, Fifo);
    DeterminedIffUntied(p, Fees(0));
  }

  lemma TiedSelections()
    ensures var t, u := Tx(1, 1, 0, 5, 5), Tx(2, 2, 0, 5, 5);
            var p := Pool(map[(1, 0) := t, (2, 0) := u], map[], 2);
            && Selects(p, Fifo, map[1 := 0, 2 := 0], [t, u]) && Selects(p, Fifo, map[1 := 0, 2 := 0], [u, t])
  {
    var t, u := Tx(1, 1, 0, 5, 5), Tx(2, 2, 0, 5, 5);
    var p := Pool(map[(1, 0) := t, (2, 0) := u], map[], 2);
    assert Selects(p, Fifo, map[1 := 1, 2 := 1], []);
    assert [t, u][1..] == [u] && [u, t][1..] == [t] && [t][1..] == [] && [u][1..] == [];
    assert map[1 := 1, 2 := 0][2 := 1] == map[1 := 1, 2 := 1] && map[1 := 0, 2 := 1][1 := 1] == map[1 := 1, 2 := 1];
    assert Selects(p, Fifo, map[1 := 1, 2 := 0], [u]);
    assert Selects(p, Fifo, map[1 := 0, 2 := 1], [t]);
    assert map[1 := 0, 2 := 0][1 := 1] == map[1 := 1, 2 := 0] && map[1 := 0, 2 := 0][2 := 1] == map[1 := 0, 2 := 1];
  }

  lemma TiedRun()
    ensures var t, u := Tx(1, 1, 0, 5, 5), Tx(2, 2, 0, 5, 5);
            RunPool(EMPTY, [Sends(t), Sends(u), Sends(t), Sends(u)]) ==
            Pool(map[(1, 0) := t, (2, 0) := u], map[], 2)
  {
    var t, u := Tx(1, 1, 0, 5, 5), Tx(2, 2, 0, 5, 5);
    var a := Pool(map[(1, 0) := t], map[1 := 1], 1);
    var b := Pool(map[(1, 0) := t, (2, 0) := u], map[1 := 1, 2 := 2], 2);
    var c := Pool(b.pending, map[2 := 2], 2);
    var d := Pool(b.pending, map[], 2);
    assert Used(EMPTY, Sends(t)) == a && Used(a, Sends(u)) == b;
    assert b.arrival[1 := 1] - {1} == map[2 := 2] && b.pending[(1, 0) := t] == b.pending;
    assert Used(b, Sends(t)) == c;
    assert c.arrival[2 := 2] - {2} == map[] && c.pending[(2, 0) := u] == c.pending;
    assert Used(c, Sends(u)) == d;
    hide Used;
    var s, w := Sends(t), Sends(u);
    assert [s, w, s, w][1..] == [w, s, w] && [w, s, w][1..] == [s, w] && [s, w][1..] == [w] && [w][1..] == [];
    assert RunPool(c, [w]) == d;
    assert RunPool(b, [s, w]) == d;
    assert RunPool(a, [w, s, w]) == d;
  }

  /** The pool in the source's form. */
  class TransactionPool {
    var pending: map<Slot, Tx>
    var arrival: map<nat, nat>
    var nextArrival: nat

    function View(): Pool
      reads this
    {
      Pool(pending, arrival, nextArrival)
    }

    ghost predicate Valid()
      reads this
    {
      Placed(View())
    }

    constructor ()
      ensures Valid() && Sound(View()) && View() == EMPTY
    {
      pending, arrival, nextArrival := map[], map[], 0;
    }

    method AddTransaction(tx: Tx) returns (ok: bool)
      requires Valid() && Genuine(View(), tx)
      modifies this
      ensures var r := Add(old(View()), tx); ok == r.Some? && View() == if ok then r.value else old(View())
      ensures Valid()
      ensures old(Sound(View())) ==> (Sound(View()) <==> !ok || !Resent(old(View()), tx))
    {
      ghost var before := View();
      if Add(before, tx).Some? {
        AddKeepsPlaced(before, tx);
        if Sound(before) { AddKeepsSoundIff(before, tx); }
      }
      var at := (tx.sender, tx.nonce);
      if tx.nonce >= MAX_UINT64 { return false; }
      if at in pending {
        var previous := pending[at];
        var feeBump, tipBump := previous.feeCap * 110 / 100, previous.tipCap * 110 / 100;
        if tx.feeCap < feeBump || tx.tipCap < tipBump { return false; }
        arrival := arrival[tx.hash := if previous.hash in arrival then arrival[previous.hash] else 0];
        arrival := arrival - {previous.hash};
      } else {
        nextArrival := nextArrival + 1;
        arrival := arrival[tx.hash := nextArrival];
      }
      pending := pending[at := tx];
      return true;
    }

    method ApplyCanonicalBlock(txs: seq<Tx>)
      requires Valid() && forall i :: 0 <= i < |txs| ==> Genuine(View(), txs[i])
      modifies this
      ensures Valid() && View() == Include(old(View()), txs)
      ensures forall k: Slot :: k in pending <==> k in old(pending) && !Includes(txs, k)
      ensures forall k: Slot :: k in pending ==> pending[k] == old(pending)[k]
      ensures old(Sound(View())) ==> Sound(View())
    {
      IncludeKeepsPlaced(View(), txs);
      IncludeTakesExactly(View(), txs);
      if Sound(View()) { IncludeKeepsSound(View(), txs); }
      for i := 0 to |txs|
        invariant View() == Include(old(View()), txs[..i])
      {
        assert txs[..i + 1][..i] == txs[..i];
        arrival := arrival - {txs[i].hash};
        pending := pending - {(txs[i].sender, txs[i].nonce)};
      }
      assert txs[..|txs|] == txs;
    }
  }
}
