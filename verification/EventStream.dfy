/** The event stream of `run`: a bounded channel that drops what does not fit
    and is closed once, and the loop that writes its events until the station
    has returned. */
module EventStream {
  import opened Station

  datatype SimulatorEvent = SimulatorEvent(
    direction: string, action: string, status: string, connectorID: Option<int>, detail: string)

  const CAPACITY: nat := 256

  /** An event is accepted by an open channel that is not full. */
  predicate HasRoom(buffer: seq<SimulatorEvent>, closed: bool) {
    !closed && |buffer| < CAPACITY
  }

  class EventChannel {
    var buffer: seq<SimulatorEvent>
    var closed: bool
    var closeDone: bool

    /** The once guard is spent exactly when the channel is closed. */
    predicate Valid()
      reads this
    {
      closeDone == closed
    }

    constructor ()
      ensures Valid() && buffer == [] && !closed
    {
      buffer, closed, closeDone := [], false, false;
    }

    /** Never blocks: an event that does not fit is dropped. */
    method Emit(event: SimulatorEvent) returns (sent: bool)
      modifies this
      ensures closed == old(closed) && closeDone == old(closeDone)
      ensures sent <==> !old(closed) && |old(buffer)| < 256
      ensures buffer == if sent then old(buffer) + [event] else old(buffer)
    {
      if closed {
        return false;
      }
      sent := |buffer| < CAPACITY;
      if sent {
        buffer := buffer + [event];
      }
    }

    /** Closing a closed channel would be an error. */
    method CloseChannel()
      requires !closed
      modifies this`closed
      ensures closed
    {
      closed := true;
    }

    /** May be called any number of times: only the first call closes. */
    method Close()
      requires Valid()
      modifies this
      ensures Valid() && closed && buffer == old(buffer)
    {
      if !closeDone {
        closeDone := true;
        CloseChannel();
      }
    }

    method Receive() returns (event: SimulatorEvent)
      requires buffer != []
      modifies this
      ensures event == old(buffer)[0] && buffer == old(buffer)[1..]
      ensures closed == old(closed) && closeDone == old(closeDone)
    {
      event := buffer[0];
      buffer := buffer[1..];
    }
  }

  /** The stream writer: a write either succeeds or returns an error. */
  class StreamWriter {
    var written: seq<SimulatorEvent>

    constructor ()
      ensures written == []
    {
      written := [];
    }

    method Write(event: SimulatorEvent) returns (ok: bool)
      modifies this
      ensures written == if ok then old(written) + [event] else old(written)
    {
      ok := *;
      if ok {
        written := written + [event];
      }
    }
  }

  datatype Drained = AllWritten | WriteFailed | WouldWait

  /** The loop over what is left in the channel: it writes everything in order,
      or stops at the first write that fails.  With everything written it ends
      if the channel is closed, and waits for more if it is not. */
  method Drain(channel: EventChannel, out: StreamWriter) returns (result: Drained)
    modifies channel, out
    ensures channel.closed == old(channel.closed)
    ensures result != WriteFailed ==>
      channel.buffer == [] && out.written == old(out.written) + old(channel.buffer)
    ensures result != WriteFailed ==> (result == AllWritten <==> channel.closed)
    ensures result == WriteFailed ==> exists k ::
      && 0 <= k < |old(channel.buffer)|
      && out.written == old(out.written) + old(channel.buffer)[..k] && channel.buffer == old(channel.buffer)[k + 1..]
  {
    ghost var k := 0;
    while channel.buffer != []
      invariant channel.closed == old(channel.closed) && 0 <= k <= |old(channel.buffer)|
      invariant channel.buffer == old(channel.buffer)[k..]
      invariant out.written == old(out.written) + old(channel.buffer)[..k]
      decreases |channel.buffer|
    {
      var event := channel.Receive();
      var ok := out.Write(event);
      if !ok {
        return WriteFailed;
      }
      assert old(channel.buffer)[..k + 1] == old(channel.buffer)[..k] + [event];
      k := k + 1;
    }
    assert old(channel.buffer)[..k] == old(channel.buffer);
    return if channel.closed then AllWritten else WouldWait;
  }

  // ---------------------------------------------------------------------
  // The station, the emitters and the loop, interleaved
  // ---------------------------------------------------------------------

  /** `Station.Run`: it returns early without closing the channel, or starts and
      closes the channel on its way out. */
  datatype Runner = Beginning | Running | Closing | Returned(started: bool)

  /** The loop of `run`: selecting, waiting for the result after the channel
      was closed, draining after the result, or returned. */
  datatype Consumer = Selecting | Awaiting | Draining | Done(writeFailed: bool)

  datatype State = State(
    buffer: seq<SimulatorEvent>,
    closed: bool,
    runner: Runner,
    consumer: Consumer,
    emitted: seq<SimulatorEvent>,
    accepted: seq<SimulatorEvent>,
    delivered: seq<SimulatorEvent>,
    written: seq<SimulatorEvent>)

  const INITIAL := State([], false, Beginning, Selecting, [], [], [], [])

  datatype Action =
    | Emits(event: SimulatorEvent)
    | ReturnsEarly
    | Starts
    | Closes
    | Returns
    | Consumes(ok: bool)
    | SeesClosed
    | TakesResult
    | FinishesDraining

  /** The loop takes the next event and writes it. */
  ghost predicate ConsumeStep(s: State, ok: bool, s': State) {
    && (s.consumer == Selecting || s.consumer == Draining)
    && s.buffer != []
    && s' == s.(
         buffer := s.buffer[1..],
         delivered := s.delivered + [s.buffer[0]],
         written := if ok then s.written + [s.buffer[0]] else s.written,
         consumer := if ok then s.consumer else Done(true))
  }

  ghost predicate EmitStep(s: State, event: SimulatorEvent, s': State) {
    s' == if HasRoom(s.buffer, s.closed)
          then s.(emitted := s.emitted + [event], accepted := s.accepted + [event], buffer := s.buffer + [event])
          else s.(emitted := s.emitted + [event])
  }

  ghost predicate Next(s: State, a: Action, s': State) {
    match a
    case Emits(event) => EmitStep(s, event, s')
    case ReturnsEarly => s.runner == Beginning && s' == s.(runner := Returned(false))
    case Starts => s.runner == Beginning && s' == s.(runner := Running)
    case Closes => s.runner == Running && s' == s.(runner := Closing, closed := true)
    case Returns => s.runner == Closing && s' == s.(runner := Returned(true))
    case Consumes(ok) => ConsumeStep(s, ok, s')
    case SeesClosed => s.consumer == Selecting && s.closed && s.buffer == [] && s' == s.(consumer := Awaiting)
    case TakesResult =>
      && s.runner.Returned?
      && (s.consumer == Selecting || s.consumer == Awaiting)
      && s' == s.(consumer := if s.consumer == Selecting then Draining else Done(false))
    case FinishesDraining =>
      s.consumer == Draining && s.closed && s.buffer == [] && s' == s.(consumer := Done(false))
  }

  datatype Run = Run(states: seq<State>, actions: seq<Action>)

  ghost predicate StepAt(run: Run, i: int)
    requires 0 <= i < |run.actions| && |run.states| == |run.actions| + 1
  {
    Next(run.states[i], run.actions[i], run.states[i + 1])
  }

  ghost predicate IsRun(run: Run) {
    && |run.states| == |run.actions| + 1
    && run.states[0] == INITIAL
    && forall i :: 0 <= i < |run.actions| ==> StepAt(run, i)
  }

  // ---------------------------------------------------------------------
  // Invariant
  // ---------------------------------------------------------------------

  /** `part` is what is left of `whole` when some elements are dropped. */
  predicate Subsequence(part: seq<SimulatorEvent>, whole: seq<SimulatorEvent>) {
    if whole == [] then part == []
    else
      || Subsequence(part, whole[..|whole| - 1])
      || (&& part != [] && part[|part| - 1] == whole[|whole| - 1]
          && Subsequence(part[..|part| - 1], whole[..|whole| - 1]))
  }

  ghost predicate Inv(s: State) {
    && s.accepted == s.delivered + s.buffer
    && Subsequence(s.accepted, s.emitted)
    && |s.buffer| <= CAPACITY
    && (s.closed <==> s.runner == Closing || s.runner == Returned(true))
    && (s.consumer != Done(true) ==> s.written == s.delivered)
    && (s.consumer == Awaiting || s.consumer == Done(false) ==> s.closed && s.buffer == [])
    && (s.consumer == Draining || s.consumer == Done(false) ==> s.runner.Returned?)
  }

  lemma EmitKeepsInv(s: State, event: SimulatorEvent, s': State)
    requires Inv(s) && EmitStep(s, event, s')
    ensures Inv(s')
  {
    var whole := s'.emitted;
    assert whole[..|whole| - 1] == s.emitted;
    if HasRoom(s.buffer, s.closed) {
      var part := s'.accepted;
      assert part[..|part| - 1] == s.accepted && part[|part| - 1] == event;
      assert Subsequence(part, whole);
      assert s'.accepted == s'.delivered + s'.buffer;
    } else {
      assert Subsequence(s.accepted, whole);
    }
  }

  lemma ConsumeKeepsInv(s: State, ok: bool, s': State)
    requires Inv(s) && ConsumeStep(s, ok, s')
    ensures Inv(s')
  {
    assert s.buffer == [s.buffer[0]] + s.buffer[1..];
    assert s'.delivered + s'.buffer == s.accepted;
  }

  lemma StepKeepsInv(s: State, a: Action, s': State)
    requires Inv(s) && Next(s, a, s')
    ensures Inv(s')
  {
    match a
    case Emits(event) => EmitKeepsInv(s, event, s');
    case Consumes(ok) => ConsumeKeepsInv(s, ok, s');
    case _ =>
  }

  lemma {:induction false} InvInRun(run: Run, i: nat)
    requires IsRun(run) && i < |run.states|
    ensures Inv(run.states[i])
  {
    if i > 0 {
      InvInRun(run, i - 1);
      assert StepAt(run, i - 1);
      StepKeepsInv(run.states[i - 1], run.actions[i - 1], run.states[i]);
    }
  }

  // ---------------------------------------------------------------------
  // Theorems
  // ---------------------------------------------------------------------

  /** Delivered and then pending events are, in order, among the emitted ones,
      and at most the capacity is pending. */
  lemma DeliversInOrder(run: Run, i: nat)
    requires IsRun(run) && i < |run.states|
    ensures Subsequence(run.states[i].delivered + run.states[i].buffer, run.states[i].emitted)
    ensures |run.states[i].buffer| <= 256
  {
    InvInRun(run, i);
  }

  /** An emitted event is accepted exactly if the channel is open and fewer than
      256 events are pending; it then waits behind them. */
  lemma AcceptedIfRoom(run: Run, i: nat)
    requires IsRun(run) && i < |run.actions| && run.actions[i].Emits?
    ensures var s, s', event := run.states[i], run.states[i + 1], run.actions[i].event;
      if !s.closed && |s.buffer| < 256
      then s'.accepted == s.accepted + [event] && s'.buffer == s.buffer + [event]
      else s'.accepted == s.accepted && s'.buffer == s.buffer
  {
    assert StepAt(run, i);
  }

  /** Nothing is accepted after the close, and the channel is not closed again. */
  lemma {:induction false} NothingAfterClose(run: Run, i: nat, j: nat)
    requires IsRun(run) && i <= j < |run.states| && run.states[i].closed
    ensures run.states[j].closed && run.states[j].accepted == run.states[i].accepted
    ensures forall k :: i <= k < j ==> !run.actions[k].Closes?
    decreases j - i
  {
    if i < j {
      NothingAfterClose(run, i, j - 1);
      InvInRun(run, j - 1);
      assert StepAt(run, j - 1);
    }
  }

  /** When the loop returns without a write error, every accepted event has
      been written, once and in order, and no further one will be accepted. */
  lemma WritesEverything(run: Run, i: nat, j: nat)
    requires IsRun(run) && i <= j < |run.states| && run.states[i].consumer == Done(false)
    ensures run.states[i].written == run.states[j].accepted
    ensures run.states[i].buffer == []
  {
    InvInRun(run, i);
    NothingAfterClose(run, i, j);
  }

  /** The station returned without having started. */
  ghost predicate NeverStarted(s: State) {
    s.runner == Returned(false)
  }

  lemma {:induction false} EarlyReturnIsFinal(run: Run, i: nat, j: nat)
    requires IsRun(run) && i <= j < |run.states| && NeverStarted(run.states[i])
    ensures NeverStarted(run.states[j])
    decreases j - i
  {
    if i < j {
      EarlyReturnIsFinal(run, i, j - 1);
      assert StepAt(run, j - 1);
    }
  }

  /** The loop can only return without a write error if the station started:
      after an early return the channel is never closed, and the loop waits
      for events that do not come. */
  lemma EarlyReturnNeverFinishes(run: Run, i: nat, j: nat)
    requires IsRun(run) && i <= j < |run.states| && NeverStarted(run.states[i])
    ensures run.states[j].consumer != Done(false) && !run.states[j].closed
  {
    EarlyReturnIsFinal(run, i, j);
    InvInRun(run, j);
  }

  /** After an early return and the result, with nothing pending, only another
      event could move the loop. */
  lemma EarlyReturnBlocks(run: Run, i: nat, a: Action, s': State)
    requires IsRun(run) && i < |run.states| && NeverStarted(run.states[i])
    requires run.states[i].consumer == Draining && run.states[i].buffer == []
    requires Next(run.states[i], a, s')
    ensures a.Emits?
  {
    InvInRun(run, i);
  }

  /** After a start the loop can always go on: while it has not returned, some
      step other than an emission is possible. */
  lemma StartedNeverBlocks(run: Run, i: nat) returns (a: Action, s': State)
    requires IsRun(run) && i < |run.states| && !NeverStarted(run.states[i])
    requires !run.states[i].consumer.Done?
    ensures !a.Emits? && Next(run.states[i], a, s')
  {
    InvInRun(run, i);
    var s := run.states[i];
    match s.runner
    case Beginning => a, s' := Starts, s.(runner := Running);
    case Running => a, s' := Closes, s.(runner := Closing, closed := true);
    case Closing => a, s' := Returns, s.(runner := Returned(true));
    case Returned(_) =>
      if s.consumer == Awaiting {
        a, s' := TakesResult, s.(consumer := Done(false));
      } else if s.buffer != [] {
        a := Consumes(true);
        s' := s.(buffer := s.buffer[1..], delivered := s.delivered + [s.buffer[0]], written := s.written + [s.buffer[0]]);
      } else if s.consumer == Selecting {
        a, s' := SeesClosed, s.(consumer := Awaiting);
      } else {
        a, s' := FinishesDraining, s.(consumer := Done(false));
      }
  }

  // ---------------------------------------------------------------------
  // The loop returns
  // ---------------------------------------------------------------------

  /** A bound on the steps left after the close. */
  function Remaining(s: State): nat {
    |s.buffer|
    + (match s.runner case Returned(_) => 0 case _ => 1)
    + (match s.consumer case Selecting => 2 case Awaiting => 1 case Draining => 1 case Done(_) => 0)
  }

  lemma StepUsesUp(s: State, a: Action, s': State)
    requires Inv(s) && s.closed && Next(s, a, s')
    ensures if a.Emits? then Remaining(s') == Remaining(s) else Remaining(s') < Remaining(s)
  {}

  /** The steps from `i` to `j` that are not emissions. */
  function Moves(actions: seq<Action>, i: nat, j: nat): nat
    requires i <= j <= |actions|
    decreases j
  {
    if i == j then 0
    else Moves(actions, i, j - 1) + if actions[j - 1].Emits? then 0 else 1
  }

  lemma ActionUsesUp(run: Run, i: nat)
    requires IsRun(run) && i < |run.actions| && run.states[i].closed
    ensures run.states[i + 1].closed
    ensures Remaining(run.states[i + 1]) + (if run.actions[i].Emits? then 0 else 1) <= Remaining(run.states[i])
  {
    var s, a, s' := run.states[i], run.actions[i], run.states[i + 1];
    InvInRun(run, i);
    assert StepAt(run, i);
    StepUsesUp(s, a, s');
  }

  lemma {:induction false} MovesAreBounded(run: Run, i: nat, j: nat)
    requires IsRun(run) && i <= j < |run.states| && run.states[i].closed
    ensures run.states[j].closed
    ensures Moves(run.actions, i, j) + Remaining(run.states[j]) <= Remaining(run.states[i])
    decreases j - i
  {
    if i < j {
      MovesAreBounded(run, i, j - 1);
      ActionUsesUp(run, j - 1);
    }
  }

  /** From the close on, the station and the loop take no more steps than
      remained then, however many events are still emitted; and a loop that has
      not returned can take one.  So it returns after at most that many. */
  lemma ReturnsAfterClose(run: Run, i: nat, j: nat)
    requires IsRun(run) && i <= j < |run.states| && run.states[i].closed
    ensures Moves(run.actions, i, j) + Remaining(run.states[j]) <= Remaining(run.states[i])
    ensures Moves(run.actions, i, j) == Remaining(run.states[i]) ==> run.states[j].consumer.Done?
    ensures !run.states[j].consumer.Done? ==> exists a: Action, s': State ::
      !a.Emits? && Next(run.states[j], a, s')
  {
    MovesAreBounded(run, i, j);
    if !run.states[j].consumer.Done? {
      InvInRun(run, j);
      var a, s' := StartedNeverBlocks(run, j);
    }
  }
}
