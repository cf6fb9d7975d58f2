/** The typed request encoding ("Requests" section of EIP-7685) with its five payload formats. */
module RequestCodec {
  import opened Prelude
  import Forks

  const DEPOSIT: nat := 0
  const WITHDRAWAL: nat := 1
  const CONSOLIDATION: nat := 2
  const BUILDER_DEPOSIT: nat := 3
  const BUILDER_EXIT: nat := 4
  const TYPES: nat := 5

  function Size(t: nat): (n: nat)
    ensures n > 0
  {
    if t == DEPOSIT then 192
    else if t == WITHDRAWAL then 76
    else if t == CONSOLIDATION then 116
    else if t == BUILDER_DEPOSIT then 184
    else 68
  }

  /** The most entries of one type in a payload. */
  function Cap(t: nat): nat {
    if t == DEPOSIT then 8192
    else if t == WITHDRAWAL then 16
    else if t == CONSOLIDATION then 2
    else if t == BUILDER_DEPOSIT then 64
    else 16
  }

  // ----- Little-endian integers -----------------------------------------------------------------------------

  function Pow256(k: nat): (n: nat)
    ensures n > 0
  {
    if k == 0 then 1 else 256 * Pow256(k - 1)
  }

  function ToLE(n: nat, k: nat): (b: Bytes)
    ensures |b| == k
  {
    if k == 0 then [] else [n % 256] + ToLE(n / 256, k - 1)
  }

  function FromLE(b: Bytes): (n: nat)
    ensures n < Pow256(|b|)
  {
    if b == [] then 0 else b[0] + 256 * FromLE(b[1..])
  }

  lemma {:induction false} FromToLE(n: nat, k: nat)
    requires n < Pow256(k)
    ensures FromLE(ToLE(n, k)) == n
  {
    if k > 0 {
      FromToLE(n / 256, k - 1);
      assert ToLE(n, k)[1..] == ToLE(n / 256, k - 1);
    }
  }

  lemma {:induction false} ToFromLE(b: Bytes)
    ensures ToLE(FromLE(b), |b|) == b
  {
    if b != [] {
      ToFromLE(b[1..]);
      assert FromLE(b) % 256 == b[0] && FromLE(b) / 256 == FromLE(b[1..]);
    }
  }

  // ----- One entry ------------------------------------------------------------------------------------------

  datatype Entry =
    | Deposit(pubkey: Bytes, credentials: Bytes, amount: nat, signature: Bytes, index: nat)
    | Withdrawal(source: Bytes, pubkey: Bytes, amount: nat)
    | Consolidation(source: Bytes, sourceKey: Bytes, targetKey: Bytes)
    | BuilderDeposit(pubkey: Bytes, credentials: Bytes, amount: nat, signature: Bytes)
    | BuilderExit(source: Bytes, pubkey: Bytes)

  /** What the Go field types and the credentials check of `marshalExecutionRequests` fix about an entry. */
  predicate Fits(t: nat, e: Entry) {
    match e
    case Deposit(p, c, a, s, i) =>
      t == DEPOSIT && |p| == 48 && |c| == 32 && a < Pow256(8) && |s| == 96 && i < Pow256(8)
    case Withdrawal(a, p, v) => t == WITHDRAWAL && |a| == 20 && |p| == 48 && v < Pow256(8)
    case Consolidation(a, s, p) => t == CONSOLIDATION && |a| == 20 && |s| == 48 && |p| == 48
    case BuilderDeposit(p, c, a, s) => t == BUILDER_DEPOSIT && |p| == 48 && |c| == 32 && a < Pow256(8) && |s| == 96
    case BuilderExit(a, p) => t == BUILDER_EXIT && |a| == 20 && |p| == 48
  }

  function Encode(e: Entry): Bytes {
    match e
    case Deposit(p, c, a, s, i) => p + c + ToLE(a, 8) + s + ToLE(i, 8)
    case Withdrawal(a, p, v) => a + p + ToLE(v, 8)
    case Consolidation(a, s, p) => a + s + p
    case BuilderDeposit(p, c, a, s) => p + c + ToLE(a, 8) + s
    case BuilderExit(a, p) => a + p
  }

  function Decode(t: nat, d: Bytes): (e: Entry)
    requires t < TYPES && |d| == Size(t)
    ensures Fits(t, e)
  {
    if t == DEPOSIT then Deposit(d[..48], d[48..80], FromLE(d[80..88]), d[88..184], FromLE(d[184..192]))
    else if t == WITHDRAWAL then Withdrawal(d[..20], d[20..68], FromLE(d[68..76]))
    else if t == CONSOLIDATION then Consolidation(d[..20], d[20..68], d[68..116])
    else if t == BUILDER_DEPOSIT then BuilderDeposit(d[..48], d[48..80], FromLE(d[80..88]), d[88..184])
    else BuilderExit(d[..20], d[20..68])
  }

  lemma EncodeDecode(t: nat, d: Bytes)
    requires t < TYPES && |d| == Size(t)
    ensures Encode(Decode(t, d)) == d
  {
    if t == DEPOSIT {
      ToFromLE(d[80..88]);
      ToFromLE(d[184..192]);
    } else if t == WITHDRAWAL {
      ToFromLE(d[68..76]);
    } else if t == BUILDER_DEPOSIT {
      ToFromLE(d[80..88]);
    }
  }

  lemma DecodeEncode(t: nat, e: Entry)
    requires Fits(t, e)
    ensures t < TYPES && |Encode(e)| == Size(t) && Decode(t, Encode(e)) == e
  {
    var d := Encode(e);
    match e
    case Deposit(p, c, a, s, i) =>
      assert d[80..88] == ToLE(a, 8) && d[184..192] == ToLE(i, 8);
      assert d[..48] == p && d[48..80] == c && d[88..184] == s;
      FromToLE(a, 8);
      FromToLE(i, 8);
    case Withdrawal(a, p, v) =>
      assert d[..20] == a && d[20..68] == p && d[68..76] == ToLE(v, 8);
      FromToLE(v, 8);
    case Consolidation(a, s, p) =>
      assert d[..20] == a && d[20..68] == s && d[68..116] == p;
    case BuilderDeposit(p, c, a, s) =>
      assert d[..48] == p && d[48..80] == c && d[80..88] == ToLE(a, 8) && d[88..184] == s;
      FromToLE(a, 8);
    case BuilderExit(a, p) =>
      assert d[..20] == a && d[20..68] == p;
  }

  // ----- The layout, byte by byte ---------------------------------------------------------------------------

  /** The unsigned 64-bit number at a position, least significant byte first. */
  function Little64(d: Bytes, at: nat): nat
    requires at + 8 <= |d|
  {
    var b := (i: nat) requires at + i < |d| => d[at + i] as int;
    b(0) + 0x100 * b(1) + 0x1_0000 * b(2) + 0x100_0000 * b(3) + 0x1_0000_0000 * b(4) + 0x100_0000_0000 * b(5) +
    0x1_0000_0000_0000 * b(6) + 0x100_0000_0000_0000 * b(7)
  }

  lemma LittleIsLE(d: Bytes, at: nat)
    requires at + 8 <= |d|
    ensures FromLE(d[at..at + 8]) == Little64(d, at)
  {
    var b := d[at..at + 8];
    TailLE(b);
    TailLE(b[1..]);
    TailLE(b[2..]);
    TailLE(b[3..]);
    TailLE(b[4..]);
    TailLE(b[5..]);
    TailLE(b[6..]);
    TailLE(b[7..]);
    assert b[8..] == [];
    hide FromLE;
    assert b[1..][1..] == b[2..] && b[2..][1..] == b[3..] && b[3..][1..] == b[4..] && b[4..][1..] == b[5..];
    assert b[5..][1..] == b[6..] && b[6..][1..] == b[7..] && b[7..][1..] == b[8..];
  }

  lemma TailLE(b: Bytes)
    ensures FromLE([]) == 0
    ensures b != [] ==> FromLE(b) == b[0] + 256 * FromLE(b[1..])
  {
  }

  /** Where the fields of the three control requests stand: EIP-6110, EIP-7002 and EIP-7251. */
  lemma ControlLayout(d: Bytes)
    ensures |d| == 192 ==>
              var e := Decode(0, d);
              && e.Deposit? && e.pubkey == d[0..48] && e.credentials == d[48..80] && e.amount == Little64(d, 80)
              && e.signature == d[88..184] && e.index == Little64(d, 184)
    ensures |d| == 76 ==>
              var e := Decode(1, d);
              e.Withdrawal? && e.source == d[0..20] && e.pubkey == d[20..68] && e.amount == Little64(d, 68)
    ensures |d| == 116 ==>
              var e := Decode(2, d);
              e.Consolidation? && e.source == d[0..20] && e.sourceKey == d[20..68] && e.targetKey == d[68..116]
  {
    if |d| == 192 { LittleIsLE(d, 80); LittleIsLE(d, 184); }
    if |d| == 76 { LittleIsLE(d, 68); }
  }

  /** And those of the two builder requests. */
  lemma BuilderLayout(d: Bytes)
    ensures |d| == 184 ==>
              var e := Decode(3, d);
              && e.BuilderDeposit? && e.pubkey == d[0..48] && e.credentials == d[48..80]
              && e.amount == Little64(d, 80) && e.signature == d[88..184]
    ensures |d| == 68 ==>
              var e := Decode(4, d);
              e.BuilderExit? && e.source == d[0..20] && e.pubkey == d[20..68]
  {
    if |d| == 184 { LittleIsLE(d, 80); }
  }

  // ----- One typed item -------------------------------------------------------------------------------------

  function EncodeAll(es: seq<Entry>): Bytes {
    if es == [] then [] else Encode(es[0]) + EncodeAll(es[1..])
  }

  /** `n` bytes are a whole number of entries. */
  predicate Whole(t: nat, n: nat)
    decreases n
  {
    n == 0 || (n >= Size(t) && Whole(t, n - Size(t)))
  }

  function Count(t: nat, n: nat): nat
    decreases n
  {
    if n < Size(t) then 0 else 1 + Count(t, n - Size(t))
  }

  lemma OneLess(n: nat, t: nat)
    requires n >= Size(t)
    ensures (n - Size(t)) % Size(t) == n % Size(t) && (n - Size(t)) / Size(t) == n / Size(t) - 1
  {
    var size := Size(t);
    hide Size;
    var q, rest := n / size, n % size;
    assert n == q * size + rest;
    Forks.FitsIffProductFits(1, n, size);
    assert (q - 1) * size == q * size - size;
    Forks.QuotientOfProduct(q - 1, size, rest);
  }

  lemma LessThanOne(n: nat, t: nat)
    requires n < Size(t)
    ensures n % Size(t) == n && n / Size(t) == 0
  {
  }

  /** The source's remainder and quotient tests, one constant size at a time. */
  lemma {:induction false} WholeIsRemainder(t: nat, n: nat)
    ensures Whole(t, n) <==> n % Size(t) == 0
    ensures Count(t, n) == n / Size(t)
    decreases n
  {
    hide Size;
    if n >= Size(t) {
      WholeIsRemainder(t, n - Size(t));
      OneLess(n, t);
    } else {
      LessThanOne(n, t);
    }
  }

  function DecodeAll(t: nat, d: Bytes): (es: seq<Entry>)
    requires t < TYPES && Whole(t, |d|)
    ensures |es| == Count(t, |d|)
    ensures forall i :: 0 <= i < |es| ==> Fits(t, es[i])
    decreases |d|
  {
    if d == [] then [] else [Decode(t, d[..Size(t)])] + DecodeAll(t, d[Size(t)..])
  }

  lemma {:induction false} EncodeDecodeAll(t: nat, d: Bytes)
    requires t < TYPES && Whole(t, |d|)
    ensures EncodeAll(DecodeAll(t, d)) == d
    decreases |d|
  {
    hide Decode, Encode;
    if d != [] {
      EncodeDecode(t, d[..Size(t)]);
      EncodeDecodeAll(t, d[Size(t)..]);
      assert DecodeAll(t, d)[1..] == DecodeAll(t, d[Size(t)..]);
      assert d == d[..Size(t)] + d[Size(t)..];
    }
  }

  lemma {:induction false} DecodeEncodeAll(t: nat, es: seq<Entry>)
    requires t < TYPES && forall i :: 0 <= i < |es| ==> Fits(t, es[i])
    ensures Whole(t, |EncodeAll(es)|) && DecodeAll(t, EncodeAll(es)) == es
    ensures es != [] ==> |EncodeAll(es)| > 0
  {
    if es != [] {
      DecodeEncode(t, es[0]);
      DecodeEncodeAll(t, es[1..]);
      var d := EncodeAll(es);
      assert d[..Size(t)] == Encode(es[0]) && d[Size(t)..] == EncodeAll(es[1..]);
      assert es == [es[0]] + es[1..];
    }
  }

  // ----- Request lists --------------------------------------------------------------------------------------

  datatype Requests = Requests(deposits: seq<Entry>, withdrawals: seq<Entry>, consolidations: seq<Entry>,
                               builderDeposits: seq<Entry>, builderExits: seq<Entry>) {
    function Of(t: nat): seq<Entry> {
      if t == DEPOSIT then deposits
      else if t == WITHDRAWAL then withdrawals
      else if t == CONSOLIDATION then consolidations
      else if t == BUILDER_DEPOSIT then builderDeposits
      else if t == BUILDER_EXIT then builderExits
      else []
    }

    function With(t: nat, es: seq<Entry>): (r: Requests)
      requires t < TYPES
      ensures r.Of(t) == es && forall u :: u != t ==> r.Of(u) == Of(u)
    {
      if t == DEPOSIT then this.(deposits := es)
      else if t == WITHDRAWAL then this.(withdrawals := es)
      else if t == CONSOLIDATION then this.(consolidations := es)
      else if t == BUILDER_DEPOSIT then this.(builderDeposits := es)
      else this.(builderExits := es)
    }

    /** Every entry has the shape of its list. */
    predicate Typed() {
      forall t, i :: 0 <= t < TYPES && 0 <= i < |Of(t)| ==> Fits(t, Of(t)[i])
    }

    predicate WithinCaps() {
      forall t :: 0 <= t < TYPES ==> |Of(t)| <= Cap(t)
    }
  }

  const NO_REQUESTS := Requests([], [], [], [], [])

  /** Requests are equal when their five lists are. */
  lemma SameLists(a: Requests, b: Requests)
    requires forall t :: 0 <= t < TYPES ==> a.Of(t) == b.Of(t)
    ensures a == b
  {
    assert a.Of(0) == b.Of(0) && a.Of(1) == b.Of(1) && a.Of(2) == b.Of(2) && a.Of(3) == b.Of(3) && a.Of(4) == b.Of(4);
  }

  /** An item the parser accepts: a known type, then one to `Cap` whole entries. */
  predicate GoodItem(item: Bytes) {
    |item| >= 2 && item[0] < TYPES && Whole(item[0], |item| - 1) && Count(item[0], |item| - 1) <= Cap(item[0])
  }

  /** The lists `parseExecutionRequests` accepts. */
  predicate Accepted(list: seq<Bytes>) {
    && (forall i :: 0 <= i < |list| ==> GoodItem(list[i]))
    && (forall i, j :: 0 <= i < j < |list| ==> |list[i]| > 0 && |list[j]| > 0 && list[i][0] < list[j][0])
  }

  /** The shape of an item in the numbers of the EIPs. */
  predicate ItemShape(item: Bytes) {
    |item| > 1 &&
    var n := |item| - 1;
    match item[0]
    case 0 => n % 192 == 0 && n / 192 <= 8192
    case 1 => n % 76 == 0 && n / 76 <= 16
    case 2 => n % 116 == 0 && n / 116 <= 2
    case 3 => n % 184 == 0 && n / 184 <= 64
    case 4 => n % 68 == 0 && n / 68 <= 16
    case _ => false
  }

  /** A list is accepted exactly when every item is a type byte from 0 to 4 with one or more whole entries up to the
      type's limit, and the type bytes strictly increase. */
  lemma AcceptedIffShaped(list: seq<Bytes>)
    ensures Accepted(list) <==>
            && (forall i :: 0 <= i < |list| ==> ItemShape(list[i]))
            && (forall i, j :: 0 <= i < j < |list| ==> |list[i]| > 0 && |list[j]| > 0 && list[i][0] < list[j][0])
  {
    forall i | 0 <= i < |list| ensures GoodItem(list[i]) <==> ItemShape(list[i]) { GoodIsShaped(list[i]); }
    hide GoodItem, ItemShape;
  }

  lemma GoodIsShaped(item: Bytes)
    ensures GoodItem(item) <==> ItemShape(item)
  {
    if |item| > 1 { WholeIsRemainder(item[0], |item| - 1); }
    hide Whole, Count;
  }

  /** The payload of the item of type `t`, empty when there is none. */
  function Payload(list: seq<Bytes>, t: nat): Bytes {
    if list == [] then []
    else if |list[0]| > 0 && list[0][0] == t then list[0][1..]
    else Payload(list[1..], t)
  }

  lemma {:induction false} PayloadOfAccepted(list: seq<Bytes>, t: nat)
    requires Accepted(list) && t < TYPES
    ensures Whole(t, |Payload(list, t)|) && Count(t, |Payload(list, t)|) <= Cap(t)
    ensures Payload(list, t) != [] <==> exists i :: 0 <= i < |list| && |list[i]| > 0 && list[i][0] == t
    ensures forall i :: 0 <= i < |list| && list[i][0] == t ==> list[i] == [t as byte] + Payload(list, t)
  {
    if list != [] {
      assert GoodItem(list[0]);
      if list[0][0] == t {
        assert list[0] == [t as byte] + list[0][1..];
      } else {
        assert Accepted(list[1..]);
        PayloadOfAccepted(list[1..], t);
        if i :| 0 <= i < |list| && |list[i]| > 0 && list[i][0] == t { assert list[1..][i - 1] == list[i]; }
        forall i | 0 <= i < |list| && list[i][0] == t ensures list[i] == [t as byte] + Payload(list, t) {
          assert list[i] == list[1..][i - 1];
        }
      }
    }
  }

  function EntriesOf(list: seq<Bytes>, t: nat): (es: seq<Entry>)
    requires Accepted(list) && t < TYPES
    ensures |es| <= Cap(t) && forall i :: 0 <= i < |es| ==> Fits(t, es[i])
  {
    PayloadOfAccepted(list, t);
    DecodeAll(t, Payload(list, t))
  }

  /** The parsed form of an accepted list. */
  function Parsed(list: seq<Bytes>): (r: Requests)
    requires Accepted(list)
    ensures forall t :: 0 <= t < TYPES ==> r.Of(t) == EntriesOf(list, t)
  {
    Requests(EntriesOf(list, 0), EntriesOf(list, 1), EntriesOf(list, 2), EntriesOf(list, 3), EntriesOf(list, 4))
  }

  function TypedItem(t: nat, es: seq<Entry>): Bytes
    requires t < TYPES
  {
    [t as byte] + EncodeAll(es)
  }

  /** `marshalExecutionRequests` from type `t` on: one item for every non-empty list, in type order. */
  function MarshalFrom(r: Requests, t: nat): seq<Bytes>
    requires t <= TYPES
    decreases TYPES - t
  {
    if t == TYPES then []
    else if r.Of(t) == [] then MarshalFrom(r, t + 1)
    else [TypedItem(t, r.Of(t))] + MarshalFrom(r, t + 1)
  }

  function Marshal(r: Requests): seq<Bytes> {
    MarshalFrom(r, 0)
  }

  // ----- Parsing and marshalling are inverse ----------------------------------------------------------------

  lemma ItemIsGood(r: Requests, t: nat)
    requires r.Typed() && r.WithinCaps() && t < TYPES && r.Of(t) != []
    ensures GoodItem(TypedItem(t, r.Of(t))) && TypedItem(t, r.Of(t))[1..] == EncodeAll(r.Of(t))
  {
    DecodeEncodeAll(t, r.Of(t));
  }

  predicate TypesFrom(list: seq<Bytes>, t: nat) {
    forall i :: 0 <= i < |list| ==> |list[i]| > 0 && list[i][0] >= t
  }

  lemma AcceptedCons(item: Bytes, list: seq<Bytes>)
    requires GoodItem(item) && Accepted(list) && TypesFrom(list, item[0] + 1)
    ensures Accepted([item] + list) && TypesFrom([item] + list, item[0])
  {
  }

  lemma {:induction false} MarshalFromIsAccepted(r: Requests, t: nat)
    requires r.Typed() && r.WithinCaps() && t <= TYPES
    ensures Accepted(MarshalFrom(r, t)) && TypesFrom(MarshalFrom(r, t), t)
    decreases TYPES - t
  {
    hide GoodItem, EncodeAll;
    if t == TYPES {
    } else if r.Of(t) == [] {
      MarshalFromIsAccepted(r, t + 1);
    } else {
      MarshalFromIsAccepted(r, t + 1);
      ItemIsGood(r, t);
      var item, rest := TypedItem(t, r.Of(t)), MarshalFrom(r, t + 1);
      AcceptedCons(item, rest);
    }
  }

  lemma {:induction false} MarshalFromPayload(r: Requests, t: nat, u: nat)
    requires t <= TYPES && u < TYPES
    ensures Payload(MarshalFrom(r, t), u) == if u >= t then EncodeAll(r.Of(u)) else []
    decreases TYPES - t
  {
    if t < TYPES {
      MarshalFromPayload(r, t + 1, u);
      if r.Of(t) != [] {
        var list := MarshalFrom(r, t);
        assert list[1..] == MarshalFrom(r, t + 1);
        assert list[0][1..] == EncodeAll(r.Of(t));
      }
    }
  }

  /** Parsing undoes marshalling on every typed value within the caps. */
  lemma ParseMarshal(r: Requests)
    requires r.Typed() && r.WithinCaps()
    ensures Accepted(Marshal(r)) && Parsed(Marshal(r)) == r
  {
    MarshalFromIsAccepted(r, 0);
    ParseAcceptedMarshal(r);
  }

  lemma ParseAcceptedMarshal(r: Requests)
    requires r.Typed() && Accepted(Marshal(r))
    ensures Parsed(Marshal(r)) == r
  {
    forall t | 0 <= t < TYPES ensures Parsed(Marshal(r)).Of(t) == r.Of(t) {
      MarshalFromPayload(r, 0, t);
      DecodeEncodeAll(t, r.Of(t));
    }
    SameLists(Parsed(Marshal(r)), r);
  }

  /** Above type `t` the list is its own tail. */
  lemma AcceptedTail(list: seq<Bytes>)
    requires Accepted(list) && list != []
    ensures Accepted(list[1..]) && TypesFrom(list[1..], list[0][0] + 1)
    ensures forall u :: list[0][0] < u < TYPES ==> EntriesOf(list[1..], u) == EntriesOf(list, u)
  {
  }

  lemma {:induction false} MarshalFromParsed(list: seq<Bytes>, r: Requests, t: nat)
    requires Accepted(list) && t <= TYPES
    requires TypesFrom(list, t)
    requires forall u :: t <= u < TYPES ==> r.Of(u) == EntriesOf(list, u)
    ensures MarshalFrom(r, t) == list
    decreases TYPES - t
  {
    hide DecodeAll, EncodeAll;
    if t < TYPES {
      PayloadOfAccepted(list, t);
      EncodeDecodeAll(t, Payload(list, t));
      if list != [] && list[0][0] == t {
        AcceptedTail(list);
        MarshalFromParsed(list[1..], r, t + 1);
        assert TypedItem(t, r.Of(t)) == list[0];
        assert list == [list[0]] + list[1..];
      } else {
        if list != [] { AcceptedTail(list); assert list == [list[0]] + list[1..]; }
        MarshalFromParsed(list, r, t + 1);
      }
    }
  }

  /** Marshalling undoes parsing on every accepted list. */
  lemma MarshalParse(list: seq<Bytes>)
    requires Accepted(list)
    ensures Marshal(Parsed(list)) == list
    ensures Parsed(list).Typed() && Parsed(list).WithinCaps()
  {
    MarshalFromParsed(list, Parsed(list), 0);
  }

  // ----- The loops of the source ----------------------------------------------------------------------------

  lemma {:induction false} PayloadOfLonger(list: seq<Bytes>, item: Bytes, t: nat)
    requires |item| > 0 && forall i :: 0 <= i < |list| ==> |list[i]| > 0
    requires item[0] == t ==> forall i :: 0 <= i < |list| ==> list[i][0] != t
    ensures Payload(list + [item], t) == if item[0] == t then item[1..] else Payload(list, t)
  {
    var longer := list + [item];
    if list != [] {
      assert longer[1..] == list[1..] + [item];
      if list[0][0] != t { PayloadOfLonger(list[1..], item, t); }
    }
  }

  /** The shape checks made while scanning; the caps of the three control types come after the scan. */
  predicate ScannedItem(item: Bytes) {
    |item| >= 2 && item[0] < TYPES && Whole(item[0], |item| - 1) &&
    (item[0] >= BUILDER_DEPOSIT ==> Count(item[0], |item| - 1) <= Cap(item[0]))
  }

  predicate Scanned(list: seq<Bytes>) {
    && (forall i :: 0 <= i < |list| ==> ScannedItem(list[i]))
    && (forall i, j :: 0 <= i < j < |list| ==> |list[i]| > 0 && |list[j]| > 0 && list[i][0] < list[j][0])
  }

  predicate Decodes(list: seq<Bytes>, r: Requests) {
    forall t :: 0 <= t < TYPES ==> Whole(t, |Payload(list, t)|) && r.Of(t) == DecodeAll(t, Payload(list, t))
  }

  predicate TypesBelow(list: seq<Bytes>, t: nat) {
    forall i :: 0 <= i < |list| ==> |list[i]| > 0 && list[i][0] < t
  }

  lemma ScanStarts()
    ensures Decodes([], NO_REQUESTS)
  {
  }

  lemma ScanOne(list: seq<Bytes>, item: Bytes, r: Requests, r': Requests)
    requires Scanned(list) && Decodes(list, r) && ScannedItem(item) && TypesBelow(list, item[0])
    requires r' == r.With(item[0], DecodeAll(item[0], item[1..]))
    ensures Scanned(list + [item]) && Decodes(list + [item], r')
  {
    forall t | 0 <= t < TYPES
      ensures Whole(t, |Payload(list + [item], t)|) && r'.Of(t) == DecodeAll(t, Payload(list + [item], t))
    {
      PayloadOfLonger(list, item, t);
      assert t != item[0] ==> r'.Of(t) == r.Of(t);
    }
  }

  lemma ScanEnds(list: seq<Bytes>, r: Requests)
    requires Scanned(list) && Decodes(list, r)
    ensures Accepted(list) <==> |r.Of(0)| <= Cap(0) && |r.Of(1)| <= Cap(1) && |r.Of(2)| <= Cap(2)
    ensures Accepted(list) ==> r == Parsed(list)
  {
    if Accepted(list) {
      forall t | 0 <= t < TYPES ensures r.Of(t) == EntriesOf(list, t) { PayloadOfAccepted(list, t); }
      SameLists(r, Parsed(list));
      assert r.Of(0) == EntriesOf(list, 0) && r.Of(1) == EntriesOf(list, 1) && r.Of(2) == EntriesOf(list, 2);
    } else if i :| 0 <= i < |list| && !GoodItem(list[i]) {
      assert ScannedItem(list[i]);
      ScannedPayload(list, i);
      assert |r.Of(list[i][0])| > Cap(list[i][0]);
    }
  }

  method ParseItem(t: nat, payload: Bytes) returns (es: seq<Entry>)
    requires t < TYPES && Whole(t, |payload|)
    ensures es == DecodeAll(t, payload)
  {
    hide Decode;
    es := [];
    var offset := 0;
    while offset < |payload|
      invariant 0 <= offset <= |payload| && Whole(t, |payload| - offset)
      invariant es + DecodeAll(t, payload[offset..]) == DecodeAll(t, payload)
    {
      assert payload[offset..][..Size(t)] == payload[offset..offset + Size(t)];
      assert payload[offset..][Size(t)..] == payload[offset + Size(t)..];
      es := es + [Decode(t, payload[offset..offset + Size(t)])];
      offset := offset + Size(t);
    }
  }

  /** `parseExecutionRequests`: accepts exactly the `Accepted` lists and returns their parsed form. */
  method ParseExecutionRequests(list: seq<Bytes>) returns (r: Option<Requests>)
    ensures r.Some? <==> Accepted(list)
    ensures r.Some? ==> r.value == Parsed(list)
  {
    hide Decodes, DecodeAll;
    var result := NO_REQUESTS;
    assert Decodes([], result) by { ScanStarts(); }
    var previousType: int := -1;
    for index := 0 to |list|
      invariant -1 <= previousType < TYPES && TypesBelow(list[..index], previousType + 1)
      invariant previousType >= 0 ==> index > 0 && |list[index - 1]| > 0 && list[index - 1][0] == previousType
      invariant Scanned(list[..index]) && Decodes(list[..index], result)
    {
      var request := list[index];
      if |request| <= 1 || request[0] >= TYPES { assert !GoodItem(list[index]); return None; }
      var requestType: nat := request[0];
      if requestType <= previousType { return None; }
      var payload := request[1..];
      WholeIsRemainder(requestType, |payload|);
      if |payload| % Size(requestType) != 0 { assert !GoodItem(list[index]); return None; }
      if requestType >= BUILDER_DEPOSIT && |payload| / Size(requestType) > Cap(requestType) {
        assert !GoodItem(list[index]);
        return None;
      }
      var es := ParseItem(requestType, payload);
      ScanOne(list[..index], request, result, result.With(requestType, es));
      assert list[..index + 1] == list[..index] + [request];
      result := result.With(requestType, es);
      previousType := requestType;
    }
    assert list[..|list|] == list;
    ScanEnds(list, result);
    if |result.deposits| > Cap(DEPOSIT) || |result.withdrawals| > Cap(WITHDRAWAL) ||
       |result.consolidations| > Cap(CONSOLIDATION) {
      return None;
    }
    return Some(result);
  }

  lemma {:induction false} ScannedPayload(list: seq<Bytes>, i: nat)
    requires i < |list| && forall k :: 0 <= k < |list| ==> |list[k]| > 0
    requires forall k, l :: 0 <= k < l < |list| ==> list[k][0] < list[l][0]
    ensures Payload(list, list[i][0]) == list[i][1..]
  {
    if i > 0 {
      assert list[0][0] < list[i][0];
      ScannedPayload(list[1..], i - 1);
    }
  }

  /** `marshalExecutionRequests`: fails exactly on a deposit whose credentials are not 32 bytes. */
  method MarshalItem(t: nat, es: seq<Entry>) returns (item: Option<Bytes>)
    requires t < TYPES
    ensures item.None? <==> t == DEPOSIT && BadCredentials(es)
    ensures item.Some? ==> item.value == TypedItem(t, es)
  {
    hide Encode;
    var result: Bytes := [t as byte];
    for k := 0 to |es|
      invariant result + EncodeAll(es[k..]) == TypedItem(t, es)
      invariant t == DEPOSIT ==> !BadCredentials(es[..k])
    {
      if t == DEPOSIT && es[k].Deposit? && |es[k].credentials| != 32 { return None; }
      assert es[k..][1..] == es[k + 1..];
      assert es[..k + 1] == es[..k] + [es[k]];
      result := result + Encode(es[k]);
    }
    assert es[..|es|] == es;
    return Some(result);
  }

  predicate BadCredentials(es: seq<Entry>) {
    exists i :: 0 <= i < |es| && es[i].Deposit? && |es[i].credentials| != 32
  }

  /** `marshalExecutionRequests`: fails exactly on a deposit whose credentials are not 32 bytes. */
  method MarshalExecutionRequests(r: Requests) returns (list: Option<seq<Bytes>>)
    ensures list.None? <==> BadCredentials(r.deposits)
    ensures list.Some? ==> list.value == Marshal(r)
  {
    var result := [];
    for t := 0 to TYPES
      invariant result + MarshalFrom(r, t) == Marshal(r)
      invariant t > 0 ==> !BadCredentials(r.deposits)
    {
      if r.Of(t) != [] {
        var item := MarshalItem(t, r.Of(t));
        if item.None? { return None; }
        result := result + [item.value];
      }
    }
    return Some(result);
  }
}
