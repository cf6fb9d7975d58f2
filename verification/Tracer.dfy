/** The simulation log tracer: a stack of frames whose logs are dropped when the frame reverts. */
module Tracer {
  import opened Prelude

  datatype Payload = Payload(address: nat, topics: seq<nat>, data: seq<nat>)

  datatype Log = Log(payload: Payload, index: nat)

  const CALLCODE := 0xf2
  const DELEGATECALL := 0xf4
  const TRANSFER_ADDRESS := 0xEeeeeEeeeEeEeeEeEeEeeEEEeeeeEeeeeeeeEEeE
  const TRANSFER_TOPIC := 0xddf252ad1be2c89b69c2b068fc378daa952ba7f163c4a11628f55a4df523b3ef

  /** A call's opcode, parties and value, if it has one. */
  datatype Call = Call(opcode: nat, from: nat, to: nat, value: Option<int>)

  datatype Hook = Enter(call: Call) | Exit(depth: nat, reverted: bool) | Emit(payload: Payload)

  datatype Tracer = Tracer(transfers: bool, logs: seq<seq<Log>>, count: nat)

  /** The transfer log of a call: value moves, except in code borrowed by the caller. */
  function TransferOf(transfers: bool, call: Call): Option<Payload> {
    if transfers && call.opcode != DELEGATECALL && call.opcode != CALLCODE && call.value.Some? && call.value.value > 0
    then Some(Payload(TRANSFER_ADDRESS, [TRANSFER_TOPIC, call.from, call.to], [call.value.value]))
    else None
  }

  function Captured(t: Tracer, payload: Payload): Tracer {
    if t.logs == [] then t
    else
      var last := |t.logs| - 1;
      t.(logs := t.logs[last := t.logs[last] + [Log(payload, t.count)]], count := t.count + 1)
  }

  /** The hooks. */
  function Hooked(t: Tracer, hook: Hook): Tracer {
    match hook
    case Enter(call) =>
      var pushed := t.(logs := t.logs + [[]]);
      var transfer := TransferOf(t.transfers, call);
      if transfer.Some? then Captured(pushed, transfer.value) else pushed
    case Emit(payload) => Captured(t, payload)
    case Exit(depth, reverted) =>
      var last := |t.logs| - 1;
      if depth == 0 then (if reverted && t.logs != [] then t.(logs := t.logs[0 := []]) else t)
      else if last < 1 then t
      else if reverted then t.(logs := t.logs[..last])
      else t.(logs := t.logs[..last][last - 1 := t.logs[last - 1] + t.logs[last]])
  }

  function Run(t: Tracer, hooks: seq<Hook>): Tracer
    decreases |hooks|
  {
    if hooks == [] then t else Run(Hooked(t, hooks[0]), hooks[1..])
  }

  function Result(t: Tracer): seq<Log> {
    if t.logs == [] then [] else t.logs[0]
  }

  // ----- Well-nested traces ---------------------------------------------------------------------------------

  /** What happens inside a frame, in order. */
  datatype Body =
    | Done
    | Emitted(payload: Payload, rest: Body)
    | Called(frame: Frame, rest: Body)

  datatype Frame = Frame(call: Call, body: Body, reverted: bool)

  function FrameHooks(f: Frame, depth: nat): seq<Hook> {
    [Enter(f.call)] + BodyHooks(f.body, depth) + [Exit(depth, f.reverted)]
  }

  function BodyHooks(b: Body, depth: nat): seq<Hook> {
    match b
    case Done => []
    case Emitted(payload, rest) => [Emit(payload)] + BodyHooks(rest, depth)
    case Called(frame, rest) => FrameHooks(frame, depth + 1) + BodyHooks(rest, depth)
  }

  // ----- The reference --------------------------------------------------------------------------------------

  /** A log in execution order, and whether its own and all enclosing frames succeeded. */
  datatype Mark = Mark(payload: Payload, kept: bool)

  function FrameMarks(f: Frame, transfers: bool, alive: bool): seq<Mark> {
    var live := alive && !f.reverted;
    var transfer := TransferOf(transfers, f.call);
    if transfer.Some? then [Mark(transfer.value, live)] + BodyMarks(f.body, transfers, live)
    else BodyMarks(f.body, transfers, live)
  }

  function BodyMarks(b: Body, transfers: bool, alive: bool): seq<Mark> {
    match b
    case Done => []
    case Emitted(payload, rest) => [Mark(payload, alive)] + BodyMarks(rest, transfers, alive)
    case Called(frame, rest) => FrameMarks(frame, transfers, alive) + BodyMarks(rest, transfers, alive)
  }

  /** The kept logs, numbered among all logs from `first` on. */
  function Kept(marks: seq<Mark>, first: nat): seq<Log> {
    if marks == [] then []
    else if marks[0].kept then [Log(marks[0].payload, first)] + Kept(marks[1..], first + 1)
    else Kept(marks[1..], first + 1)
  }

  lemma {:induction false} KeptConcat(a: seq<Mark>, b: seq<Mark>, first: nat)
    ensures Kept(a + b, first) == Kept(a, first) + Kept(b, first + |a|)
    decreases |a|
  {
    if a == [] {
      assert a + b == b;
    } else {
      assert (a + b)[1..] == a[1..] + b;
      KeptConcat(a[1..], b, first + 1);
    }
  }

  predicate NoneKept(marks: seq<Mark>) {
    forall i :: 0 <= i < |marks| ==> !marks[i].kept
  }

  lemma {:induction false} NoneIsKept(marks: seq<Mark>, first: nat)
    requires NoneKept(marks)
    ensures Kept(marks, first) == []
    decreases |marks|
  {
    if marks != [] { NoneIsKept(marks[1..], first + 1); }
  }

  /** Inside a dead frame nothing is kept, and as many logs are counted as in a live one. */
  lemma {:induction false} DeadBody(b: Body, transfers: bool)
    ensures NoneKept(BodyMarks(b, transfers, false))
    ensures |BodyMarks(b, transfers, false)| == |BodyMarks(b, transfers, true)|
  {
    match b
    case Done =>
    case Emitted(payload, rest) => DeadBody(rest, transfers);
    case Called(frame, rest) => DeadBody(frame.body, transfers); DeadBody(rest, transfers);
  }

  // ----- The tracer is the reference ------------------------------------------------------------------------

  lemma {:induction false} RunConcat(t: Tracer, a: seq<Hook>, b: seq<Hook>)
    ensures Run(t, a + b) == Run(Run(t, a), b)
    decreases |a|
  {
    hide Hooked;
    if a == [] {
      assert a + b == b;
    } else {
      assert (a + b)[1..] == a[1..] + b;
      RunConcat(Hooked(t, a[0]), a[1..], b);
    }
  }

  lemma RunOne(t: Tracer, hook: Hook)
    ensures Run(t, [hook]) == Hooked(t, hook)
  {
  }

  /** A tracer with `below` under the frame that holds `top`. */
  function Inside(transfers: bool, below: seq<seq<Log>>, top: seq<Log>, count: nat): Tracer {
    Tracer(transfers, below + [top], count)
  }

  lemma {:induction false} BodyIsTraced(b: Body, depth: nat, transfers: bool, below: seq<seq<Log>>, top: seq<Log>,
                                        count: nat)
    requires |below| == depth
    ensures var marks := BodyMarks(b, transfers, true);
            Run(Inside(transfers, below, top, count), BodyHooks(b, depth)) ==
            Inside(transfers, below, top + Kept(marks, count), count + |marks|)
    decreases b
  {
    var t := Inside(transfers, below, top, count);
    hide Hooked, Run, FrameMarks, FrameHooks;
    match b
    case Done =>
      assert top + [] == top;
      RunNothing(t);
    case Emitted(payload, rest) =>
      var top' := top + [Log(payload, count)];
      RunConcat(t, [Emit(payload)], BodyHooks(rest, depth));
      RunOne(t, Emit(payload));
      EmitIsTraced(payload, transfers, below, top, count);
      BodyIsTraced(rest, depth, transfers, below, top', count + 1);
      var more := BodyMarks(rest, transfers, true);
      assert ([Mark(payload, true)] + more)[1..] == more;
      assert top' + Kept(more, count + 1) == top + ([Log(payload, count)] + Kept(more, count + 1));
    case Called(frame, rest) =>
      var inner := FrameMarks(frame, transfers, true);
      var top' := top + Kept(inner, count);
      RunConcat(t, FrameHooks(frame, depth + 1), BodyHooks(rest, depth));
      CallIsTraced(frame, depth, transfers, below, top, count);
      BodyIsTraced(rest, depth, transfers, below, top', count + |inner|);
      var more := BodyMarks(rest, transfers, true);
      KeptConcat(inner, more, count);
      assert top' + Kept(more, count + |inner|) == top + (Kept(inner, count) + Kept(more, count + |inner|));
  }

  lemma RunNothing(t: Tracer)
    ensures Run(t, []) == t
  {
  }

  lemma EmitIsTraced(payload: Payload, transfers: bool, below: seq<seq<Log>>, top: seq<Log>, count: nat)
    ensures Hooked(Inside(transfers, below, top, count), Emit(payload)) ==
            Inside(transfers, below, top + [Log(payload, count)], count + 1)
  {
  }

  /** Entering: the new frame starts with the transfer log, if any. */
  lemma EnterIsTraced(call: Call, t: Tracer, first: nat)
    requires t.count == first
    ensures var transfer := TransferOf(t.transfers, call);
            Hooked(t, Enter(call)) ==
            Inside(t.transfers, t.logs, if transfer.Some? then [Log(transfer.value, first)] else [],
                   if transfer.Some? then first + 1 else first)
  {
    var transfer := TransferOf(t.transfers, call);
    hide TransferOf;
    if transfer.Some? {
      var pushed: seq<seq<Log>> := t.logs + [[]];
      var log := Log(transfer.value, first);
      assert pushed[|t.logs|] + [log] == [log];
      assert pushed[|t.logs| := [log]] == t.logs + [[log]];
    }
  }

  /** The whole of a frame up to its exit. */
  lemma {:induction false} FrameUpToExit(f: Frame, depth: nat, transfers: bool, below: seq<seq<Log>>, count: nat)
    requires |below| == depth
    ensures var marks := FrameMarks(f.(reverted := false), transfers, true);
            Run(Tracer(transfers, below, count), [Enter(f.call)] + BodyHooks(f.body, depth)) ==
            Inside(transfers, below, Kept(marks, count), count + |marks|)
    decreases f, 0
  {
    var t := Tracer(transfers, below, count);
    var transfer := TransferOf(transfers, f.call);
    RunConcat(t, [Enter(f.call)], BodyHooks(f.body, depth));
    RunOne(t, Enter(f.call));
    EnterIsTraced(f.call, t, count);
    hide Hooked, TransferOf, BodyHooks, Run, BodyMarks;
    var body := BodyMarks(f.body, transfers, true);
    if transfer.Some? {
      var top := [Log(transfer.value, count)];
      BodyIsTraced(f.body, depth, transfers, below, top, count + 1);
      assert ([Mark(transfer.value, true)] + body)[1..] == body;
    } else {
      BodyIsTraced(f.body, depth, transfers, below, [], count);
      assert [] + Kept(body, count) == Kept(body, count);
    }
  }

  lemma {:induction false} CallIsTraced(f: Frame, depth: nat, transfers: bool, below: seq<seq<Log>>, top: seq<Log>,
                                        count: nat)
    requires |below| == depth
    ensures var marks := FrameMarks(f, transfers, true);
            Run(Inside(transfers, below, top, count), FrameHooks(f, depth + 1)) ==
            Inside(transfers, below, top + Kept(marks, count), count + |marks|)
    decreases f, 1
  {
    var t := Inside(transfers, below, top, count);
    var inside := [Enter(f.call)] + BodyHooks(f.body, depth + 1);
    var marks := FrameMarks(f.(reverted := false), transfers, true);
    RunConcat(t, inside, [Exit(depth + 1, f.reverted)]);
    FrameUpToExit(f, depth + 1, transfers, below + [top], count);
    RunOne(Run(t, inside), Exit(depth + 1, f.reverted));
    RevertedMarks(f, transfers, count);
    hide BodyHooks, Run, FrameMarks, BodyMarks, Kept;
    ExitIsTraced(transfers, below, top, Kept(marks, count), depth, count + |marks|, f.reverted);
  }

  /** A reverted frame keeps none of the logs it counts. */
  lemma RevertedMarks(f: Frame, transfers: bool, first: nat)
    ensures var marks := FrameMarks(f.(reverted := false), transfers, true);
            |FrameMarks(f, transfers, true)| == |marks| &&
            Kept(FrameMarks(f, transfers, true), first) == if f.reverted then [] else Kept(marks, first)
  {
    if f.reverted {
      DeadBody(f.body, transfers);
      NoneIsKept(FrameMarks(f, transfers, true), first);
    } else {
      assert f.(reverted := false) == f;
    }
  }

  lemma ExitIsTraced(transfers: bool, below: seq<seq<Log>>, top: seq<Log>, inner: seq<Log>, depth: nat, count: nat,
                     reverted: bool)
    ensures Hooked(Inside(transfers, below + [top], inner, count), Exit(depth + 1, reverted)) ==
            Inside(transfers, below, top + if reverted then [] else inner, count)
  {
    var logs := below + [top] + [inner];
    var last := |logs| - 1;
    assert logs[..last] == below + [top];
    assert (below + [top])[last - 1 := top + inner] == below + [top + inner];
    assert top + [] == top;
  }

  /** For every well-nested transaction trace the result is the in-order list of the logs whose own and enclosing frames
      all did not revert, numbered among all the logs. */
  lemma TraceIsReference(f: Frame, transfers: bool, count: nat)
    ensures var marks := FrameMarks(f, transfers, true);
            var t := Run(Tracer(transfers, [], count), FrameHooks(f, 0));
            Result(t) == Kept(marks, count) && t.count == count + |marks| && t.transfers == transfers
  {
    var t := Tracer(transfers, [], count);
    var inside := [Enter(f.call)] + BodyHooks(f.body, 0);
    RunConcat(t, inside, [Exit(0, f.reverted)]);
    FrameUpToExit(f, 0, transfers, [], count);
    RunOne(Run(t, inside), Exit(0, f.reverted));
    RevertedMarks(f, transfers, count);
    hide BodyHooks, Run, FrameMarks, BodyMarks, Kept;
  }

  /** A call logs a transfer exactly when transfers are traced, it moves a positive value, and it is neither a
      CALLCODE nor a DELEGATECALL: from the agreed address, under the ERC-20 topic, with both parties and the value.
      */
  lemma TransferIsLogged(call: Call, transfers: bool, count: nat)
    ensures Result(Run(Tracer(transfers, [], count), [Enter(call), Exit(0, false)])) ==
            if transfers && call.opcode != 0xf2 && call.opcode != 0xf4 && call.value.Some? && call.value.value > 0
            then [Log(Payload(0xEeeeeEeeeEeEeeEeEeEeeEEEeeeeEeeeeeeeEEeE,
                              [0xddf252ad1be2c89b69c2b068fc378daa952ba7f163c4a11628f55a4df523b3ef, call.from, call.to],
                              [call.value.value]), count)]
            else []
  {
    var f := Frame(call, Done, false);
    TraceIsReference(f, transfers, count);
    assert FrameHooks(f, 0) == [Enter(call), Exit(0, false)];
  }

  // ----- A whole block --------------------------------------------------------------------------------------

  /** `Reset` before each transaction keeps the counter. */
  function BlockLogs(transfers: bool, count: nat, txs: seq<Frame>): seq<Log>
    decreases |txs|
  {
    if txs == [] then []
    else
      var t := Run(Tracer(transfers, [], count), FrameHooks(txs[0], 0));
      Result(t) + BlockLogs(transfers, t.count, txs[1..])
  }

  function BlockMarks(transfers: bool, txs: seq<Frame>): seq<Mark> {
    if txs == [] then [] else FrameMarks(txs[0], transfers, true) + BlockMarks(transfers, txs[1..])
  }

  lemma {:induction false} KeptIncreases(marks: seq<Mark>, first: nat)
    ensures forall i :: 0 <= i < |Kept(marks, first)| ==> first <= Kept(marks, first)[i].index < first + |marks|
    ensures forall i, j :: 0 <= i < j < |Kept(marks, first)| ==>
              Kept(marks, first)[i].index < Kept(marks, first)[j].index
    decreases |marks|
  {
    if marks != [] { KeptIncreases(marks[1..], first + 1); }
  }

  /** The logs of a block are the reference of all its transactions in a row, so their indices strictly increase. */
  lemma {:induction false} BlockIsReference(transfers: bool, count: nat, txs: seq<Frame>)
    ensures BlockLogs(transfers, count, txs) == Kept(BlockMarks(transfers, txs), count)
    ensures forall i, j :: 0 <= i < j < |BlockLogs(transfers, count, txs)| ==>
              BlockLogs(transfers, count, txs)[i].index < BlockLogs(transfers, count, txs)[j].index
    decreases |txs|
  {
    if txs != [] {
      hide FrameMarks, FrameHooks, Run, Kept;
      var marks := FrameMarks(txs[0], transfers, true);
      TraceIsReference(txs[0], transfers, count);
      BlockIsReference(transfers, count + |marks|, txs[1..]);
      KeptConcat(marks, BlockMarks(transfers, txs[1..]), count);
      KeptIncreases(BlockMarks(transfers, txs), count);
    }
  }

  // ----- The object -----------------------------------------------------------------------------------------

  class SimulationTracer {
    var logs: seq<seq<Log>>
    var count: nat
    const transfers: bool

    function View(): Tracer
      reads this
    {
      Tracer(transfers, logs, count)
    }

    constructor (transfers: bool)
      ensures View() == Tracer(transfers, [], 0)
    {
      this.transfers, logs, count := transfers, [], 0;
    }

    method CaptureLog(payload: Payload)
      modifies this
      ensures View() == Captured(old(View()), payload)
    {
      if |logs| == 0 { return; }
      logs := logs[|logs| - 1 := logs[|logs| - 1] + [Log(payload, count)]];
      count := count + 1;
    }

    method OnEnter(call: Call)
      modifies this
      ensures View() == Hooked(old(View()), Enter(call))
    {
      logs := logs + [[]];
      if call.opcode != DELEGATECALL && call.opcode != CALLCODE && call.value.Some? && call.value.value > 0 {
        if transfers {
          CaptureLog(Payload(TRANSFER_ADDRESS, [TRANSFER_TOPIC, call.from, call.to], [call.value.value]));
        }
      }
    }

    method OnLog(payload: Payload)
      modifies this
      ensures View() == Hooked(old(View()), Emit(payload))
    {
      CaptureLog(payload);
    }

    method OnExit(depth: nat, reverted: bool)
      modifies this
      ensures View() == Hooked(old(View()), Exit(depth, reverted))
    {
      if depth == 0 {
        if reverted && |logs| > 0 { logs := logs[0 := []]; }
        return;
      }
      var last := |logs| - 1;
      if last < 1 { return; }
      var inner := logs[last];
      logs := logs[..last];
      if !reverted { logs := logs[last - 1 := logs[last - 1] + inner]; }
    }

    method Reset()
      modifies this
      ensures View() == Tracer(transfers, [], old(count))
    {
      logs := [];
    }
  }
}
