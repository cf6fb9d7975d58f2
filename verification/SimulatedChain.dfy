/** `sanitizeChain`: a request's block list completed to a gap-free chain on top of the base block. */
module SimulatedChain {
  import opened Prelude

  const MAX_BLOCKS := 256

  /** A simulated block: its calls, and its overrides of number, time and withdrawals. */
  datatype SimBlock = SimBlock(calls: seq<nat>, number: Option<nat>, time: Option<nat>, withdrawals: Option<seq<nat>>)

  predicate Fits(b: SimBlock) {
    (b.number.Some? ==> b.number.value <= MAX_UINT64) && (b.time.Some? ==> b.time.value <= MAX_UINT64)
  }

  /** A filler block: no calls, no withdrawals. */
  function Filler(number: nat, time: nat): SimBlock {
    SimBlock([], Some(number), Some(time), Some([]))
  }

  /** A caller's block with its number and time fixed. */
  function Completed(b: SimBlock, number: nat, time: nat): SimBlock {
    SimBlock(b.calls, Some(number), Some(time), if b.withdrawals.None? then Some([]) else b.withdrawals)
  }

  /** The time after `n` blocks at the regular distance. */
  function TimeAfter(time: nat, n: nat, increment: nat): nat {
    if n == 0 then time else TimeAfter(time, n - 1, increment) + increment
  }

  lemma {:induction false} TimeMonotone(time: nat, m: nat, n: nat, increment: nat)
    requires m <= n
    ensures TimeAfter(time, m, increment) <= TimeAfter(time, n, increment)
  {
    if m < n { TimeMonotone(time, m, n - 1, increment); }
  }

  function NumberOf(b: SimBlock, previous: nat): nat {
    if b.number.Some? then b.number.value else previous + 1
  }

  /** Whether one caller's block fits on top of `number` and `time`: numbers increase and stay within the limit, and
      every time, the regular one included, stays in range and after the one before. */
  predicate Placeable(base: nat, number: nat, time: nat, increment: nat, b: SimBlock) {
    var next := NumberOf(b, number);
    && number < MAX_UINT64 && number < next && next - base <= MAX_BLOCKS
    && var before := TimeAfter(time, next - number - 1, increment);
       before + increment <= MAX_UINT64 && (b.time.Some? ==> before < b.time.value)
  }

  function StampOf(b: SimBlock, before: nat, increment: nat): nat {
    if b.time.Some? then b.time.value else before + increment
  }

  // ----- The specification ----------------------------------------------------------------------------------

  /** An output block, and the caller's block it stands for, if it is not a filler. */
  datatype Out = Out(done: SimBlock, asked: Option<SimBlock>)

  function AskedOf(out: seq<Out>): seq<SimBlock> {
    if out == [] then [] else (if out[0].asked.Some? then [out[0].asked.value] else []) + AskedOf(out[1..])
  }

  function DoneOf(out: seq<Out>): (r: seq<SimBlock>)
    ensures |r| == |out| && forall i :: 0 <= i < |r| ==> r[i] == out[i].done
  {
    seq(|out|, i requires 0 <= i < |out| => out[i].done)
  }

  /** The caller's calls, overrides and withdrawals are kept. */
  predicate Honours(done: SimBlock, asked: SimBlock) {
    && done.calls == asked.calls
    && (asked.number.Some? ==> done.number == asked.number) && (asked.time.Some? ==> done.time == asked.time)
    && done.withdrawals == (if asked.withdrawals.Some? then asked.withdrawals else Some([]))
  }

  /** The block after `number` and `time`, the regular time being in range. A filler is empty and at the regular time; a
      caller's block keeps what it asks for, is later than the block before, at the regular time if it asks for none,
      and without a number comes right after the base or another caller's block (`adjacent`). */
  predicate Next(number: nat, time: nat, increment: nat, adjacent: bool, o: Out) {
    && number < 0xFFFF_FFFF_FFFF_FFFF && time + increment <= 0xFFFF_FFFF_FFFF_FFFF && o.done.number == Some(number + 1)
    && match o.asked
       case None => o.done.calls == [] && o.done.withdrawals == Some([]) && o.done.time == Some(time + increment)
       case Some(b) =>
         && Honours(o.done, b) && (b.number.None? ==> adjacent)
         && o.done.time.Some? && time < o.done.time.value <= 0xFFFF_FFFF_FFFF_FFFF
         && (b.time.None? ==> o.done.time.value == time + increment)
  }

  /** Block after block, the last one a caller's. */
  predicate Follows(number: nat, time: nat, increment: nat, adjacent: bool, out: seq<Out>)
    decreases |out|
  {
    out == [] ||
    (Next(number, time, increment, adjacent, out[0]) && (out[0].asked.None? ==> |out| > 1) &&
     Follows(number + 1, out[0].done.time.value, increment, out[0].asked.Some?, out[1..]))
  }

  /** `out` completes the request: at most 256 blocks, the caller's in their order. */
  predicate Completes(base: nat, baseTime: nat, increment: nat, blocks: seq<SimBlock>, out: seq<Out>) {
    |out| <= 256 && Follows(base, baseTime, increment, true, out) && AskedOf(out) == blocks
  }

  /** So numbers run from the base without a gap, and times strictly increase without leaving 64 bits. */
  lemma {:induction false} FollowsInOrder(number: nat, time: nat, increment: nat, adjacent: bool, out: seq<Out>, i: nat)
    requires Follows(number, time, increment, adjacent, out) && i < |out| && increment > 0
    ensures out[i].done.number == Some(number + 1 + i)
    ensures out[i].done.time.Some? && time < out[i].done.time.value <= MAX_UINT64
    ensures i + 1 < |out| ==> out[i + 1].done.time.Some? && out[i].done.time.value < out[i + 1].done.time.value
    decreases |out|
  {
    if i > 0 {
      FollowsInOrder(number + 1, out[0].done.time.value, increment, out[0].asked.Some?, out[1..], i - 1);
    } else if |out| > 1 {
      assert Follows(number + 1, out[0].done.time.value, increment, out[0].asked.Some?, out[1..]);
    }
  }

  // ----- The reference --------------------------------------------------------------------------------------

  /** One output block at a time; `None` when the next caller's block cannot be reached. */
  function Complete(base: nat, number: nat, time: nat, increment: nat, blocks: seq<SimBlock>): Option<seq<Out>>
    requires base <= number
    decreases |blocks|, MAX_BLOCKS - (number - base)
  {
    if blocks == [] then Some([])
    else if number >= MAX_UINT64 || number - base >= MAX_BLOCKS || time + increment > MAX_UINT64 then None
    else
      var b := blocks[0];
      var target := NumberOf(b, number);
      if target <= number then None
      else if target > number + 1 then
        Prepend(Out(Filler(number + 1, time + increment), None),
                Complete(base, number + 1, time + increment, increment, blocks))
      else
        var stamp := StampOf(b, time, increment);
        if stamp <= time || stamp > MAX_UINT64 then None
        else Prepend(Out(Completed(b, number + 1, stamp), Some(b)),
                     Complete(base, number + 1, stamp, increment, blocks[1..]))
  }

  function Prepend(o: Out, rest: Option<seq<Out>>): Option<seq<Out>> {
    if rest.None? then None else Some([o] + rest.value)
  }

  /** The reference completes. */
  lemma {:induction false} CompleteFollows(base: nat, number: nat, time: nat, increment: nat, adjacent: bool,
                                           blocks: seq<SimBlock>)
    requires base <= number && number - base <= 256 && Complete(base, number, time, increment, blocks).Some?
    requires adjacent || (blocks != [] && blocks[0].number.Some?)
    ensures var out := Complete(base, number, time, increment, blocks).value;
            && Follows(number, time, increment, adjacent, out) && AskedOf(out) == blocks
            && |out| <= 256 - (number - base)
            && (blocks != [] ==> out != [])
    decreases |blocks|, MAX_BLOCKS - (number - base)
  {
    if blocks != [] {
      var out := Complete(base, number, time, increment, blocks).value;
      var b := blocks[0];
      if NumberOf(b, number) > number + 1 {
        CompleteFollows(base, number + 1, time + increment, increment, false, blocks);
      } else {
        CompleteFollows(base, number + 1, StampOf(b, time, increment), increment, true, blocks[1..]);
        assert blocks == [b] + blocks[1..];
      }
      assert out == [out[0]] + out[1..];
    }
  }

  /** Everything that completes is the reference. */
  lemma {:induction false} FollowsIsComplete(base: nat, number: nat, time: nat, increment: nat, adjacent: bool,
                                             out: seq<Out>)
    requires base <= number && number - base + |out| <= 256 && Follows(number, time, increment, adjacent, out)
    ensures Complete(base, number, time, increment, AskedOf(out)) == Some(out)
    ensures out != [] && !adjacent ==> AskedOf(out) != [] && AskedOf(out)[0].number.Some?
    ensures out != [] ==> AskedOf(out) != []
    ensures out != [] && AskedOf(out)[0].number.Some? ==> AskedOf(out)[0].number.value > number
    decreases |out|
  {
    if out != [] {
      var o, rest := out[0], out[1..];
      FollowsIsComplete(base, number + 1, o.done.time.value, increment, o.asked.Some?, rest);
      assert out == [o] + rest;
      if o.asked.Some? {
        assert AskedOf(out) == [o.asked.value] + AskedOf(rest);
        assert AskedOf(out)[1..] == AskedOf(rest);
        assert o.done == Completed(o.asked.value, number + 1, o.done.time.value);
      } else {
        assert AskedOf(out) == AskedOf(rest);
        assert o.done == Filler(number + 1, time + increment);
      }
    }
  }

  /** A request has at most one completion. */
  lemma CompletionIsUnique(base: nat, baseTime: nat, increment: nat, blocks: seq<SimBlock>, out: seq<Out>,
                           out': seq<Out>)
    requires Completes(base, baseTime, increment, blocks, out) && Completes(base, baseTime, increment, blocks, out')
    ensures out == out'
  {
    hide Follows, AskedOf, Complete;
    FollowsIsComplete(base, base, baseTime, increment, true, out);
    FollowsIsComplete(base, base, baseTime, increment, true, out');
  }

  // ----- The loops ------------------------------------------------------------------------------------------

  /** The fillers between two caller's blocks. */
  method FillGap(first: nat, count: nat, time: nat, increment: nat) returns (gap: Option<seq<SimBlock>>, reached: nat)
    requires time <= MAX_UINT64 && 0 < increment <= MAX_UINT64
    ensures gap.Some? <==> TimeAfter(time, count, increment) <= MAX_UINT64
    ensures gap.Some? ==> |gap.value| == count && reached == TimeAfter(time, count, increment)
    ensures gap.Some? ==>
              forall i :: 0 <= i < count ==> gap.value[i] == Filler(first + i, TimeAfter(time, i + 1, increment))
  {
    var fillers := [];
    reached := time;
    for i := 0 to count
      invariant |fillers| == i && reached == TimeAfter(time, i, increment) <= MAX_UINT64
      invariant forall j :: 0 <= j < i ==> fillers[j] == Filler(first + j, TimeAfter(time, j + 1, increment))
    {
      if reached > MAX_UINT64 - increment {
        TimeMonotone(time, i + 1, count, increment);
        return None, reached;
      }
      reached := reached + increment;
      fillers := fillers + [Filler(first + i, reached)];
    }
    return Some(fillers), reached;
  }

  /** One iteration: the fillers before a caller's block, and its number and time. */
  method Place(base: nat, number: nat, time: nat, increment: nat, b: SimBlock)
    returns (gap: Option<seq<SimBlock>>, next: nat, stamp: nat)
    requires base <= number <= MAX_UINT64 && time <= MAX_UINT64 && 0 < increment <= MAX_UINT64 && Fits(b)
    ensures gap.Some? <==> Placeable(base, number, time, increment, b)
    ensures gap.Some? ==>
              && next == NumberOf(b, number) <= MAX_UINT64 && |gap.value| == next - number - 1
              && TimeAfter(time, |gap.value|, increment) < stamp <= MAX_UINT64
              && stamp == StampOf(b, TimeAfter(time, |gap.value|, increment), increment)
              && forall i :: 0 <= i < |gap.value| ==>
                   gap.value[i] == Filler(number + 1 + i, TimeAfter(time, i + 1, increment))
  {
    gap, next, stamp := None, 0, 0;
    if number == MAX_UINT64 { return; }
    next := NumberOf(b, number);
    if next <= number || next - base > MAX_BLOCKS { return; }
    var fillers, reached := FillGap(number + 1, next - number - 1, time, increment);
    if fillers.None? { return; }
    if reached > MAX_UINT64 - increment { return; }
    stamp := reached + increment;
    if b.time.Some? { stamp := b.time.value; }
    if stamp <= reached { return; }
    gap := fillers;
  }

  /** The output of one iteration. */
  function Placed(gap: seq<SimBlock>, done: SimBlock, b: SimBlock): seq<Out> {
    seq(|gap|, i requires 0 <= i < |gap| => Out(gap[i], None)) + [Out(done, Some(b))]
  }

  function After(out: seq<Out>, rest: Option<seq<Out>>): Option<seq<Out>> {
    if rest.None? then None else Some(out + rest.value)
  }

  /** The reference, one caller's block at a time. */
  lemma {:induction false} CompleteStep(base: nat, number: nat, time: nat, increment: nat, blocks: seq<SimBlock>,
                                        gap: seq<SimBlock>)
    requires base <= number && blocks != [] && Fits(blocks[0]) && increment > 0
    requires Placeable(base, number, time, increment, blocks[0])
    requires |gap| == NumberOf(blocks[0], number) - number - 1
    requires forall i :: 0 <= i < |gap| ==> gap[i] == Filler(number + 1 + i, TimeAfter(time, i + 1, increment))
    ensures var b, next := blocks[0], NumberOf(blocks[0], number);
            var stamp := StampOf(b, TimeAfter(time, |gap|, increment), increment);
            var rest := Complete(base, next, stamp, increment, blocks[1..]);
            Complete(base, number, time, increment, blocks) ==
            After(Placed(gap, Completed(b, next, stamp), b), rest)
    decreases |gap|
  {
    var b, next := blocks[0], NumberOf(blocks[0], number);
    var stamp := StampOf(b, TimeAfter(time, |gap|, increment), increment);
    var done, rest := Completed(b, next, stamp), Complete(base, next, stamp, increment, blocks[1..]);
    if gap == [] {
      assert Placed(gap, done, b) == [Out(done, Some(b))];
    } else {
      TimeShift(time, |gap| - 1, increment);
      TimeMonotone(time, 1, |gap|, increment);
      forall i | 0 <= i < |gap| - 1
        ensures gap[1..][i] == Filler(number + 2 + i, TimeAfter(time + increment, i + 1, increment))
      {
        TimeShift(time, i + 1, increment);
      }
      CompleteStep(base, number + 1, time + increment, increment, blocks, gap[1..]);
      assert Complete(base, number, time, increment, blocks) ==
             Prepend(Out(gap[0], None), After(Placed(gap[1..], done, b), rest));
      hide Complete, Placeable, Completed;
      PrependPlaced(gap, done, b, rest);
    }
  }

  lemma PrependPlaced(gap: seq<SimBlock>, done: SimBlock, b: SimBlock, rest: Option<seq<Out>>)
    requires gap != []
    ensures Prepend(Out(gap[0], None), After(Placed(gap[1..], done, b), rest)) == After(Placed(gap, done, b), rest)
  {
    var o, tail := Out(gap[0], None), Placed(gap[1..], done, b);
    assert Placed(gap, done, b) == [o] + tail;
    if rest.Some? { assert [o] + (tail + rest.value) == [o] + tail + rest.value; }
  }

  lemma {:induction false} TimeShift(time: nat, n: nat, increment: nat)
    ensures TimeAfter(time + increment, n, increment) == TimeAfter(time, n + 1, increment)
  {
    if n > 0 { TimeShift(time, n - 1, increment); }
  }

  /** A block that does not fit ends the reference too. */
  lemma {:induction false} CompleteStops(base: nat, number: nat, time: nat, increment: nat, blocks: seq<SimBlock>)
    requires base <= number && blocks != [] && Fits(blocks[0]) && increment > 0
    requires !Placeable(base, number, time, increment, blocks[0])
    ensures Complete(base, number, time, increment, blocks).None?
    decreases MAX_BLOCKS - (number - base)
  {
    var b := blocks[0];
    if number < MAX_UINT64 && number - base < MAX_BLOCKS && time + increment <= MAX_UINT64 &&
       NumberOf(b, number) > number + 1
    {
      TimeShift(time, NumberOf(b, number) - number - 2, increment);
      CompleteStops(base, number + 1, time + increment, increment, blocks);
    }
  }

  /** Succeeds exactly on the requests that can be completed, with the one completion there is: numbers base + 1, base
      + 2 and so on, times strictly increasing without leaving 64 bits, at most 256 blocks, the caller's blocks in
      order with only fillers added, and every time the caller left open at the regular distance. */
  method SanitizeChain(base: nat, baseTime: nat, increment: nat, blocks: seq<SimBlock>)
    returns (result: Option<seq<SimBlock>>)
    requires base <= MAX_UINT64 && baseTime <= MAX_UINT64 && 0 < increment <= MAX_UINT64
    requires forall i :: 0 <= i < |blocks| ==> Fits(blocks[i])
    ensures result.Some? ==>
              exists out :: Completes(base, baseTime, increment, blocks, out) && result.value == DoneOf(out)
    ensures result.None? ==> forall out :: !Completes(base, baseTime, increment, blocks, out)
  {
    hide TimeAfter, Placeable, Complete, Completes, NumberOf, StampOf;
    var done: seq<SimBlock> := [];
    ghost var out: seq<Out> := [];
    var number, time := base, baseTime;
    ghost var want := Complete(base, base, baseTime, increment, blocks);
    assert blocks[0..] == blocks && DoneOf([]) == [];
    OnTop([], want);
    for k := 0 to |blocks|
      invariant base <= number <= MAX_UINT64 && 0 <= time <= MAX_UINT64 && done == DoneOf(out)
      invariant want == After(out, Complete(base, number, time, increment, blocks[k..]))
    {
      assert blocks[k..][1..] == blocks[k + 1..];
      var gap, next, stamp := Place(base, number, time, increment, blocks[k]);
      if gap.None? {
        CompleteStops(base, number, time, increment, blocks[k..]);
        NothingCompletes(base, baseTime, increment, blocks);
        return None;
      }
      CompleteStep(base, number, time, increment, blocks[k..], gap.value);
      var last := Completed(blocks[k], next, stamp);
      OnTopOf(out, Placed(gap.value, last, blocks[k]), Complete(base, next, stamp, increment, blocks[k + 1..]));
      out := out + Placed(gap.value, last, blocks[k]);
      done := done + gap.value + [last];
      number, time := next, stamp;
    }
    assert blocks[|blocks|..] == [];
    NothingLeft(base, number, time, increment);
    assert out + [] == out;
    ReferenceCompletes(base, baseTime, increment, blocks);
    return Some(done);
  }

  lemma OnTop(out: seq<Out>, rest: Option<seq<Out>>)
    requires out == []
    ensures After(out, rest) == rest
  {
    if rest.Some? { assert out + rest.value == rest.value; }
  }

  lemma OnTopOf(a: seq<Out>, b: seq<Out>, rest: Option<seq<Out>>)
    ensures After(a, After(b, rest)) == After(a + b, rest)
  {
    if rest.Some? { assert a + (b + rest.value) == a + b + rest.value; }
  }

  lemma NothingCompletes(base: nat, baseTime: nat, increment: nat, blocks: seq<SimBlock>)
    requires Complete(base, base, baseTime, increment, blocks).None?
    ensures forall out :: !Completes(base, baseTime, increment, blocks, out)
  {
    hide Complete, Follows, AskedOf;
    forall out ensures !Completes(base, baseTime, increment, blocks, out) {
      if Completes(base, baseTime, increment, blocks, out) {
        FollowsIsComplete(base, base, baseTime, increment, true, out);
      }
    }
  }

  lemma ReferenceCompletes(base: nat, baseTime: nat, increment: nat, blocks: seq<SimBlock>)
    requires Complete(base, base, baseTime, increment, blocks).Some?
    ensures Completes(base, baseTime, increment, blocks, Complete(base, base, baseTime, increment, blocks).value)
  {
    hide Complete, Follows, AskedOf;
    CompleteFollows(base, base, baseTime, increment, true, blocks);
  }

  lemma NothingLeft(base: nat, number: nat, time: nat, increment: nat)
    requires base <= number
    ensures Complete(base, number, time, increment, []) == Some([])
  {
  }
}
