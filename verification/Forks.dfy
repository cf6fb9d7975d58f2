/** Fork arithmetic: activation times on the execution side, epochs on the consensus side, both in 64 bits. */
module Forks {
  import opened Prelude

  const WORD := MAX_UINT64 + 1

  function Add64(a: nat, b: nat): nat { (a + b) % WORD }

  function Mul64(a: nat, b: nat): nat { (a * b) % WORD }

  /** The chain settings the fork code reads; `slotSeconds` is the slot duration in seconds. */
  datatype Settings = Settings(
    genesisTime: nat, slotSeconds: nat, slotsPerEpoch: nat,
    cancun: nat, prague: nat, osaka: nat, amsterdam: Option<nat>)

  /** The values are unsigned 64-bit, except that the genesis time is a signed one. */
  predicate Sized(c: Settings) {
    && c.genesisTime <= MAX_UINT64 / 2 && c.slotSeconds <= MAX_UINT64 && c.slotsPerEpoch <= MAX_UINT64
    && c.cancun <= MAX_UINT64 && c.prague <= MAX_UINT64 && c.osaka <= MAX_UINT64
    && (c.amsterdam.Some? ==> c.amsterdam.value <= MAX_UINT64 / 2)
  }

  /** The overflow and order guards of `validateResolved`, in its order and its arithmetic. */
  predicate Accepted(c: Settings) {
    && c.slotSeconds > 0 && c.slotsPerEpoch > 0
    && c.slotsPerEpoch <= MAX_UINT64 / c.slotSeconds
    && var epochSeconds := Mul64(c.slotSeconds, c.slotsPerEpoch);
       && epochSeconds > 0
       && (c.amsterdam.Some? ==>
             c.osaka <= c.amsterdam.value && c.amsterdam.value <= (MAX_UINT64 - c.genesisTime) / epochSeconds)
       && c.osaka <= MAX_UINT64 / epochSeconds
       && c.genesisTime <= MAX_UINT64 - Mul64(c.osaka, epochSeconds)
       && c.slotsPerEpoch <= MAX_UINT64 / 2
       && c.cancun <= c.prague && c.prague <= c.osaka && c.cancun == 0
  }

  // ----- Arithmetic -----------------------------------------------------------------------------------------

  /** A quotient bound is a product bound. */
  lemma FitsIffProductFits(a: nat, limit: nat, b: nat)
    requires b > 0
    ensures a <= limit / b <==> a * b <= limit
  {
    var q := limit / b;
    assert limit == q * b + limit % b;
    if a <= q { MulMonotone(a, q, b); } else { MulMonotone(q + 1, a, b); assert (q + 1) * b == q * b + b; }
  }

  lemma MulMonotone(a: nat, b: nat, c: nat)
    requires a <= b
    ensures a * c <= b * c
  {
  }

  lemma MulCancels(a: nat, b: nat, c: nat)
    requires c > 0
    ensures a * c <= b * c <==> a <= b
  {
  }

  lemma QuotientOfProduct(a: nat, b: nat, r: nat)
    requires b > 0 && r < b
    ensures (a * b + r) / b == a && (a * b + r) % b == r
  {
    var n := a * b + r;
    var q := n / b;
    assert n == q * b + n % b;
    FitsIffProductFits(a, n, b);
    FitsIffProductFits(a + 1, n, b);
    assert (a + 1) * b == a * b + b;
  }

  // ----- No overflow ----------------------------------------------------------------------------------------

  function EpochSeconds(c: Settings): nat {
    c.slotsPerEpoch * c.slotSeconds
  }

  /** `activationTime`, in 64-bit arithmetic and in its order of operations. */
  function ActivationTime(c: Settings, epoch: nat): nat {
    Add64(c.genesisTime, Mul64(Mul64(epoch, c.slotsPerEpoch), c.slotSeconds))
  }

  /** No fork that passes the guards overflows anywhere on the way to its activation time. */
  lemma ActivationIsExact(c: Settings, epoch: nat)
    requires Sized(c) && Accepted(c)
    requires epoch <= c.osaka || (c.amsterdam.Some? && epoch == c.amsterdam.value)
    ensures c.slotSeconds > 0 && epoch * c.slotsPerEpoch <= MAX_UINT64 && epoch * EpochSeconds(c) <= MAX_UINT64
    ensures ActivationTime(c, epoch) == c.genesisTime + epoch * EpochSeconds(c) <= MAX_UINT64
  {
    assert c.slotSeconds > 0;
    EpochOffsetFits(c, epoch);
    var slots := epoch * c.slotsPerEpoch;
    hide Sized, Accepted, Mul64, Add64;
    assert slots * c.slotSeconds == epoch * EpochSeconds(c) by { Reassociate(epoch, c.slotsPerEpoch, c.slotSeconds); }
    assert slots <= slots * c.slotSeconds by { MulMonotone(1, c.slotSeconds, slots); }
    NoWrap(epoch, c.slotsPerEpoch);
    NoWrap(slots, c.slotSeconds);
    NoCarry(c.genesisTime, slots * c.slotSeconds);
  }

  lemma NoWrap(a: nat, b: nat)
    requires a * b <= MAX_UINT64
    ensures Mul64(a, b) == a * b
  {
  }

  lemma NoCarry(a: nat, b: nat)
    requires a + b <= MAX_UINT64
    ensures Add64(a, b) == a + b
  {
  }

  lemma Reassociate(a: nat, b: nat, c: nat)
    ensures a * (b * c) == (a * b) * c
  {
  }

  lemma EpochFits(c: Settings)
    requires Accepted(c)
    ensures 0 < EpochSeconds(c) <= MAX_UINT64 && Mul64(c.slotSeconds, c.slotsPerEpoch) == EpochSeconds(c)
  {
    var slots, seconds := c.slotsPerEpoch, c.slotSeconds;
    assert slots > 0 && seconds > 0 && slots <= MAX_UINT64 / seconds;
    hide Accepted, Mul64;
    FitsIffProductFits(slots, MAX_UINT64, seconds);
    MulMonotone(1, slots, seconds);
    NoWrap(seconds, slots);
  }

  lemma EpochOffsetFits(c: Settings, epoch: nat)
    requires Sized(c) && Accepted(c)
    requires epoch <= c.osaka || (c.amsterdam.Some? && epoch == c.amsterdam.value)
    ensures c.genesisTime + epoch * EpochSeconds(c) <= MAX_UINT64
  {
    EpochFits(c);
    var e := EpochSeconds(c);
    hide EpochSeconds;
    FitsIffProductFits(c.osaka, MAX_UINT64, e);
    if epoch <= c.osaka {
      MulMonotone(epoch, c.osaka, e);
    } else {
      FitsIffProductFits(epoch, MAX_UINT64 - c.genesisTime, e);
    }
  }

  /** The guards accept exactly the configurations in which the forks are in order from genesis on and the start of
      every configured one fits in 64 bits. */
  lemma AcceptedIffFits(c: Settings)
    requires Sized(c)
    ensures Accepted(c) <==>
            && c.slotSeconds > 0 && 0 < c.slotsPerEpoch <= 0x7FFF_FFFF_FFFF_FFFF
            && c.slotsPerEpoch * c.slotSeconds <= 0xFFFF_FFFF_FFFF_FFFF
            && c.cancun == 0 && c.prague <= c.osaka
            && c.genesisTime + c.osaka * (c.slotsPerEpoch * c.slotSeconds) <= 0xFFFF_FFFF_FFFF_FFFF
            && (c.amsterdam.Some? ==>
                  && c.osaka <= c.amsterdam.value
                  && c.genesisTime + c.amsterdam.value * (c.slotsPerEpoch * c.slotSeconds) <= 0xFFFF_FFFF_FFFF_FFFF)
  {
    if c.slotSeconds > 0 && c.slotsPerEpoch > 0 {
      var e := c.slotsPerEpoch * c.slotSeconds;
      FitsIffProductFits(c.slotsPerEpoch, MAX_UINT64, c.slotSeconds);
      MulMonotone(1, c.slotsPerEpoch, c.slotSeconds);
      if e <= MAX_UINT64 {
        assert c.slotSeconds * c.slotsPerEpoch == e;
        NoWrap(c.slotSeconds, c.slotsPerEpoch);
        FitsIffProductFits(c.osaka, MAX_UINT64, e);
        if c.osaka * e <= MAX_UINT64 { NoWrap(c.osaka, e); }
        if c.amsterdam.Some? { FitsIffProductFits(c.amsterdam.value, MAX_UINT64 - c.genesisTime, e); }
      }
      hide Mul64;
    }
  }

  // ----- One fork on both sides -----------------------------------------------------------------------------

  datatype Fork = Cancun | Prague | Osaka | Amsterdam

  /** What the execution client runs at a timestamp: the latest fork whose activation time has come. */
  function ForkAtTime(c: Settings, time: nat): Fork {
    if c.amsterdam.Some? && time >= ActivationTime(c, c.amsterdam.value) then Amsterdam
    else if time >= ActivationTime(c, c.osaka) then Osaka
    else if time >= ActivationTime(c, c.prague) then Prague
    else Cancun
  }

  /** `forkVersion`, by its first byte. */
  function ForkVersion(c: Settings, slot: nat): nat
    requires c.slotsPerEpoch > 0
  {
    var epoch := slot / c.slotsPerEpoch;
    if c.amsterdam.Some? && epoch >= c.amsterdam.value then 7
    else if epoch >= c.osaka then 6
    else if epoch >= c.prague then 5
    else 4
  }

  /** `forkName`. */
  function ForkName(version: nat): string {
    if version == 4 then "deneb" else if version == 5 then "electra" else if version == 7 then "gloas" else "fulu"
  }

  /** The consensus counterpart of an execution fork. */
  function NameOf(f: Fork): string {
    match f
    case Cancun => "deneb"
    case Prague => "electra"
    case Osaka => "fulu"
    case Amsterdam => "gloas"
  }

  /** A slot has reached an epoch exactly when its timestamp has reached the activation time. */
  lemma ReachedTogether(c: Settings, slot: nat, epoch: nat)
    requires Sized(c) && Accepted(c)
    requires epoch <= c.osaka || (c.amsterdam.Some? && epoch == c.amsterdam.value)
    ensures slot / c.slotsPerEpoch >= epoch <==> c.genesisTime + slot * c.slotSeconds >= ActivationTime(c, epoch)
  {
    ActivationIsExact(c, epoch);
    FitsIffProductFits(epoch, slot, c.slotsPerEpoch);
    MulCancels(epoch * c.slotsPerEpoch, slot, c.slotSeconds);
    Reassociate(epoch, c.slotsPerEpoch, c.slotSeconds);
    hide ActivationTime;
  }

  /** For every accepted configuration and every slot whose timestamp fits, both sides are in the same fork. */
  lemma SidesAgree(c: Settings, slot: nat)
    requires Sized(c) && Accepted(c) && c.genesisTime + slot * c.slotSeconds <= MAX_UINT64
    ensures ForkName(ForkVersion(c, slot)) == NameOf(ForkAtTime(c, c.genesisTime + slot * c.slotSeconds))
  {
    ReachedTogether(c, slot, c.prague);
    ReachedTogether(c, slot, c.osaka);
    if c.amsterdam.Some? { ReachedTogether(c, slot, c.amsterdam.value); }
    hide ActivationTime, Sized, Accepted;
  }

  /** The version counts the forks reached, from 4 on. */
  lemma VersionCountsForks(c: Settings, slot: nat)
    requires Sized(c) && Accepted(c)
    ensures var epoch := slot / c.slotsPerEpoch;
            ForkVersion(c, slot) ==
            4 + (if c.prague <= epoch then 1 else 0) + (if c.osaka <= epoch then 1 else 0) +
            (if c.amsterdam.Some? && c.amsterdam.value <= epoch then 1 else 0)
  {
  }

  // ----- Back to epochs and slots ---------------------------------------------------------------------------

  /** `executionForkEpoch`; `None` is its error. */
  function ExecutionForkEpoch(c: Settings, activation: nat): Option<nat>
    requires c.slotSeconds > 0
  {
    if activation <= c.genesisTime then Some(0)
    else if c.slotsPerEpoch > MAX_UINT64 / c.slotSeconds then None
    else
      var epochSeconds := Mul64(c.slotSeconds, c.slotsPerEpoch);
      var delta := activation - c.genesisTime;
      if epochSeconds == 0 then None
      else if delta % epochSeconds != 0 then None
      else Some(delta / epochSeconds)
  }

  /** It inverts the activation time of every configured fork. */
  lemma EpochInvertsActivation(c: Settings, epoch: nat)
    requires Sized(c) && Accepted(c)
    requires epoch <= c.osaka || (c.amsterdam.Some? && epoch == c.amsterdam.value)
    ensures ExecutionForkEpoch(c, ActivationTime(c, epoch)) == Some(epoch)
  {
    ActivationIsExact(c, epoch);
    EpochFits(c);
    var e := EpochSeconds(c);
    QuotientOfProduct(epoch, e, 0);
    MulCancels(1, epoch, e);
    hide ActivationTime, EpochSeconds, Mul64;
  }

  /** Conversely, for a time from genesis on it answers with an epoch exactly when that epoch starts then, so it refuses
      every time off an epoch boundary; an earlier time counts as epoch 0. */
  lemma EpochOfTime(c: Settings, activation: nat, epoch: nat)
    requires Accepted(c)
    ensures activation <= c.genesisTime ==> ExecutionForkEpoch(c, activation) == Some(0)
    ensures activation >= c.genesisTime ==>
              (ExecutionForkEpoch(c, activation) == Some(epoch) <==>
               c.genesisTime + epoch * EpochSeconds(c) == activation)
  {
    EpochFits(c);
    var e := EpochSeconds(c);
    hide EpochSeconds, Mul64;
    if activation >= c.genesisTime {
      var delta := activation - c.genesisTime;
      MulCancels(1, epoch, e);
      if delta == epoch * e {
        QuotientOfProduct(epoch, e, 0);
      } else {
        assert delta == delta / e * e + delta % e;
      }
    }
  }

  /** `slotOfUnlocked` without its cache. */
  function SlotOfTime(c: Settings, time: nat): nat {
    if time <= c.genesisTime || c.slotSeconds == 0 then 0 else (time - c.genesisTime) / c.slotSeconds
  }

  /** A block's timestamp determines its slot: every second of a slot maps back to it. */
  lemma SlotInvertsTime(c: Settings, slot: nat, into: nat)
    requires c.slotSeconds > 0 && into < c.slotSeconds
    ensures SlotOfTime(c, c.genesisTime + slot * c.slotSeconds + into) == slot
  {
    QuotientOfProduct(slot, c.slotSeconds, into);
  }
}
