/** What runs of the charge point guarantee, read off the invariants. */
module Theorems {
  import opened Station
  import opened Access
  import opened Protocol
  import opened EveryRun
  import opened Discipline
  import opened Holding

  function ConnectorAt(run: Run, i: nat, c: int): Connector
    requires i < |run.states| && c in run.states[i].core.connectors
  {
    run.states[i].core.connectors[c]
  }

  // ---------------------------------------------------------------------
  // Every run
  // ---------------------------------------------------------------------

  /** Reservations on connectors are unique, and only on connectors that exist
      and are operative. */
  lemma StoreKeepsItsShape(run: Run, i: nat, q: int, r: int)
    requires IsRun(run) && i < |run.states|
    requires q in run.states[i].core.reservations && r in run.states[i].core.reservations
    ensures var core := run.states[i].core;
      && core.connectors.Keys == Ids(run.opts.connectors)
      && (core.reservations[r].connectorID != 0 ==>
            && core.reservations[r].connectorID in core.connectors
            && core.connectors[core.reservations[r].connectorID].availability == Operative)
      && (core.reservations[q].connectorID == core.reservations[r].connectorID != 0 ==> q == r)
  {
    AlwaysInRun(run, i);
  }

  /** A ReserveNow with a future expiry drops the reservation that had its
      identifier, and stores the new one exactly when it is accepted. */
  lemma ReserveLeaves(
      s: State, request: ReserveRequest, checkedAt: int, verdict: ReserveAnswer, now: int, s': State)
    requires ReserveStep(s, request, checkedAt, verdict, now, s')
    ensures FutureExpiry(request, checkedAt) ==>
      s'.core.reservations ==
        (s.core.reservations - {request.reservationId})
        + (if verdict == ReserveAccepted
           then map[request.reservationId :=
             Reservation(request.connectorId, request.idTag, request.parentIdTag, request.expiry.value)]
           else map[])
    ensures !FutureExpiry(request, checkedAt) ==> s'.core == s.core && verdict == ReserveRejected
  {
    if FutureExpiry(request, checkedAt) {
      var base := Released(s.core, request.reservationId, now);
      assert base.reservations == s.core.reservations - {request.reservationId};
      if verdict == ReserveAccepted {
        assert GrantedStep(s, base, request, now, s');
        assert s'.core == Stored(base, request);
      } else {
        assert s'.core == base;
      }
    }
  }

  /** The events a run is counted by. */
  datatype Kind = Ticks | Accepts | Stops

  predicate IsOf(e: Event, kind: Kind) {
    match kind
    case Ticks => e.action.Tick?
    case Accepts => e.action.StartAnswered? && e.action.answer.StartAccepted?
    case Stops => e.action.StopAnswered? && e.action.confirmed
  }

  function Count(events: seq<Event>, kind: Kind): nat {
    if events == [] then 0
    else Count(events[..|events| - 1], kind) + if IsOf(events[|events| - 1], kind) then 1 else 0
  }

  function Counter(s: State, kind: Kind): nat {
    match kind
    case Ticks => s.ticks
    case Accepts => s.acceptedStarts
    case Stops => s.confirmedStops
  }

  lemma ReservationsAreNotCounted(s: State, e: Event, s': State)
    requires ReservationNext(s, e, s')
    ensures s'.ticks == s.ticks && s'.acceptedStarts == s.acceptedStarts && s'.confirmedStops == s.confirmedStops
    ensures s'.clearedByReset == s.clearedByReset && s'.backings == s.backings
  {}

  lemma StartsAreCounted(s: State, e: Event, s': State)
    requires StartNext(s, e, s')
    ensures s'.acceptedStarts == s.acceptedStarts + if IsOf(e, Accepts) then 1 else 0
    ensures s'.ticks == s.ticks && s'.confirmedStops == s.confirmedStops && s'.clearedByReset == s.clearedByReset
  {}

  lemma StepCounts(opts: Options, s: State, e: Event, s': State, kind: Kind)
    requires Next(opts, s, e, s')
    ensures Counter(s', kind) == Counter(s, kind) + if IsOf(e, kind) then 1 else 0
  {
    if StartNext(s, e, s') {
      StartsAreCounted(s, e, s');
    } else if ReservationNext(s, e, s') {
      ReservationsAreNotCounted(s, e, s');
    } else if StationNext(opts, s, e, s') {
      assert s'.acceptedStarts == s.acceptedStarts && s'.confirmedStops == s.confirmedStops;
    } else {
      assert s'.acceptedStarts == s.acceptedStarts && s'.ticks == s.ticks;
    }
  }

  /** The counters count the events between two points of a run. */
  lemma {:induction false} CountsBetween(run: Run, a: nat, b: nat, kind: Kind)
    requires IsRun(run) && a <= b < |run.states|
    ensures Counter(run.states[b], kind) == Counter(run.states[a], kind) + Count(run.events[a..b], kind)
    decreases b
  {
    if a < b {
      CountsBetween(run, a, b - 1, kind);
      var between := run.events[a..b];
      assert between[..|between| - 1] == run.events[a..b - 1];
      var s, e, s' := run.states[b - 1], run.events[b - 1], run.states[b];
      assert StepAt(run, b - 1);
      StepCounts(run.opts, s, e, s', kind);
      assert between[|between| - 1] == e;
    }
  }

  /** Every connector shows the same register: the start value and one step
      for each tick so far. */
  lemma RegistersAgree(run: Run, i: nat, c: int)
    requires IsRun(run) && i < |run.states| && c in run.states[i].core.connectors
    ensures ConnectorAt(run, i, c).meter == run.opts.meterStart + Count(run.events[0..i], Ticks) * run.opts.meterStep
  {
    AlwaysInRun(run, i);
    CountsBetween(run, 0, i, Ticks);
  }

  /** The event `e`, taken in state `s`, confirms transaction `id` as `entry`. */
  ghost predicate Confirms(s: State, e: Event, id: int, entry: Confirmed) {
    && e.action.StartAnswered? && e.action.answer == StartAccepted(id)
    && StartAt(s, e.action.thread) && s.starts[e.action.thread].pc.StartSent?
    && var start := s.starts[e.action.thread];
       entry == Confirmed(start.connectorID, start.idTag, start.pc.meterStart, start.pc.readTick)
  }

  lemma ConfirmedStep(opts: Options, s: State, e: Event, s': State, id: int)
    requires Next(opts, s, e, s') && id in s'.confirmed
    ensures (id in s.confirmed && s'.confirmed[id] == s.confirmed[id]) || Confirms(s, e, id, s'.confirmed[id])
  {
    if StartNext(s, e, s') {
    } else {
      assert s'.confirmed == s.confirmed;
    }
  }

  lemma {:induction false} ConfirmedEarlier(run: Run, i: nat, id: int) returns (j: nat)
    requires IsRun(run) && i < |run.states| && id in run.states[i].confirmed
    ensures j < i && Confirms(run.states[j], run.events[j], id, run.states[i].confirmed[id])
  {
    if i > 0 {
      assert StepAt(run, i - 1);
      ConfirmedStep(run.opts, run.states[i - 1], run.events[i - 1], run.states[i], id);
      if Confirms(run.states[i - 1], run.events[i - 1], id, run.states[i].confirmed[id]) {
        j := i - 1;
      } else {
        j := ConfirmedEarlier(run, i - 1, id);
      }
    }
  }

  /** A stop for a positive identifier was preceded by the start that the
      central system confirmed with it, on the same connector. */
  lemma StopFollowsItsStart(run: Run, i: nat, t: nat) returns (j: nat)
    requires IsRun(run) && i < |run.states| && t in run.states[i].stops
    requires run.states[i].stops[t].transactionID > 0
    ensures j < i && j < |run.events|
    ensures var stop := run.states[i].stops[t];
      && run.events[j].action.StartAnswered?
      && run.events[j].action.answer == StartAccepted(stop.transactionID)
      && StartAt(run.states[j], run.events[j].action.thread)
      && run.states[j].starts[run.events[j].action.thread].connectorID == stop.connectorID
  {
    AlwaysInRun(run, i);
    var stop := run.states[i].stops[t];
    assert StopGrounded(run.opts, run.states[i], t);
    j := ConfirmedEarlier(run, i, stop.transactionID);
  }

  lemma StartReadInThread(s: State, e: Event, s': State, t: nat)
    requires StartNext(s, e, s') && t in s'.starts && s'.starts[t].pc.StartSent?
    ensures t in s.starts && s.starts[t].connectorID == s'.starts[t].connectorID
    ensures s.starts[t].pc == s'.starts[t].pc
      || (e.action == StartReadsMeter(t) && s'.starts[t].pc.readTick == s.ticks)
  {}

  lemma StartReadStep(opts: Options, s: State, e: Event, s': State, t: nat)
    requires Next(opts, s, e, s') && t in s'.starts && s'.starts[t].pc.StartSent?
    ensures t in s.starts && s.starts[t].connectorID == s'.starts[t].connectorID
    ensures s.starts[t].pc == s'.starts[t].pc
      || (e.action == StartReadsMeter(t) && s'.starts[t].pc.readTick == s.ticks)
  {
    if StartNext(s, e, s') {
      StartReadInThread(s, e, s', t);
    } else {
      assert s'.starts == s.starts;
    }
  }

  lemma EventStartRead(run: Run, i: nat, t: nat)
    requires IsRun(run) && i < |run.events|
    requires t in run.states[i + 1].starts && run.states[i + 1].starts[t].pc.StartSent?
    ensures var s, s' := run.states[i], run.states[i + 1];
      && t in s.starts && s.starts[t].connectorID == s'.starts[t].connectorID
      && (s.starts[t].pc == s'.starts[t].pc
          || (run.events[i].action == StartReadsMeter(t) && s'.starts[t].pc.readTick == s.ticks))
  {
    var s, e, s' := run.states[i], run.events[i], run.states[i + 1];
    assert StepAt(run, i);
    StartReadStep(run.opts, s, e, s', t);
  }

  /** Where a start in flight read the register. */
  lemma {:induction false} StartReadAt(run: Run, i: nat, t: nat) returns (a: nat)
    requires IsRun(run) && i < |run.states| && t in run.states[i].starts && run.states[i].starts[t].pc.StartSent?
    ensures a < i && a < |run.events| && run.events[a].action == StartReadsMeter(t)
    ensures t in run.states[a].starts && run.states[a].starts[t].connectorID == run.states[i].starts[t].connectorID
    ensures run.states[a].ticks == run.states[i].starts[t].pc.readTick
  {
    if i > 0 {
      EventStartRead(run, i - 1, t);
      if run.states[i - 1].starts[t].pc == run.states[i].starts[t].pc {
        a := StartReadAt(run, i - 1, t);
      } else {
        a := i - 1;
      }
    }
  }

  lemma StopReadInThread(s: State, e: Event, s': State, t: nat)
    requires StopNext(s, e, s') && t in s'.stops && s'.stops[t].pc.StopSent?
    ensures t in s.stops && s.stops[t].connectorID == s'.stops[t].connectorID
    ensures s.stops[t].transactionID == s'.stops[t].transactionID
    ensures s.stops[t].pc == s'.stops[t].pc
      || (e.action == StopReadsMeter(t) && s'.stops[t].pc.readTick == s.ticks)
  {}

  lemma StopReadStep(opts: Options, s: State, e: Event, s': State, t: nat)
    requires Next(opts, s, e, s') && t in s'.stops && s'.stops[t].pc.StopSent?
    ensures t in s.stops && s.stops[t].connectorID == s'.stops[t].connectorID
    ensures s.stops[t].transactionID == s'.stops[t].transactionID
    ensures s.stops[t].pc == s'.stops[t].pc
      || (e.action == StopReadsMeter(t) && s'.stops[t].pc.readTick == s.ticks)
  {
    if StopNext(s, e, s') {
      StopReadInThread(s, e, s', t);
    } else {
      assert s'.stops == s.stops;
    }
  }

  lemma EventStopRead(run: Run, i: nat, t: nat)
    requires IsRun(run) && i < |run.events|
    requires t in run.states[i + 1].stops && run.states[i + 1].stops[t].pc.StopSent?
    ensures var s, s' := run.states[i], run.states[i + 1];
      && t in s.stops && s.stops[t].connectorID == s'.stops[t].connectorID
      && s.stops[t].transactionID == s'.stops[t].transactionID
      && (s.stops[t].pc == s'.stops[t].pc
          || (run.events[i].action == StopReadsMeter(t) && s'.stops[t].pc.readTick == s.ticks))
  {
    var s, e, s' := run.states[i], run.events[i], run.states[i + 1];
    assert StepAt(run, i);
    StopReadStep(run.opts, s, e, s', t);
  }

  /** Where a stop in flight read the register. */
  lemma {:induction false} StopReadAt(run: Run, i: nat, t: nat) returns (b: nat)
    requires IsRun(run) && i < |run.states| && t in run.states[i].stops && run.states[i].stops[t].pc.StopSent?
    ensures b < i && b < |run.events| && run.events[b].action == StopReadsMeter(t)
    ensures t in run.states[b].stops
    ensures run.states[b].stops[t].connectorID == run.states[i].stops[t].connectorID
    ensures run.states[b].stops[t].transactionID == run.states[i].stops[t].transactionID
    ensures run.states[b].ticks == run.states[i].stops[t].pc.readTick
  {
    if i > 0 {
      EventStopRead(run, i - 1, t);
      if run.states[i - 1].stops[t].pc == run.states[i].stops[t].pc {
        b := StopReadAt(run, i - 1, t);
      } else {
        b := i - 1;
      }
    }
  }

  /** The StopTransaction for a positive identifier reports the register its
      StartTransaction reported, plus one step for every tick between the two
      reads: `a` and `b` are those reads and `j` the confirmation between. */
  lemma EnergyAccounting(run: Run, i: nat, t: nat) returns (a: nat, j: nat, b: nat)
    requires IsRun(run) && i < |run.states| && t in run.states[i].stops
    requires run.states[i].stops[t].transactionID > 0 && run.states[i].stops[t].pc.StopSent?
    ensures a < j < b < i && i <= |run.events|
    ensures run.events[b].action == StopReadsMeter(t)
    ensures var stop := run.states[i].stops[t];
      && run.events[j].action.StartAnswered?
      && run.events[j].action.answer == StartAccepted(stop.transactionID)
      && run.events[a].action == StartReadsMeter(run.events[j].action.thread)
      && StartAt(run.states[j], run.events[j].action.thread)
      && var start := run.states[j].starts[run.events[j].action.thread];
         && start.connectorID == stop.connectorID && start.pc.StartSent?
         && stop.pc.meterStop == start.pc.meterStart + Count(run.events[a..b], Ticks) * run.opts.meterStep
  {
    b := StopReadAt(run, i, t);
    j := StopFollowsItsStart(run, b, t);
    var u := run.events[j].action.thread;
    assert StepAt(run, j);
    a := StartReadAt(run, j, u);
    ReadsAreRegisters(run, i, t, j, u);
    CountsBetween(run, a, b, Ticks);
    RegisterDifference(run.opts, run.states[a].ticks, run.states[b].ticks);
  }

  lemma ReadsAreRegisters(run: Run, i: nat, t: nat, j: nat, u: nat)
    requires IsRun(run) && i < |run.states| && t in run.states[i].stops && run.states[i].stops[t].pc.StopSent?
    requires j < |run.states| && u in run.states[j].starts && run.states[j].starts[u].pc.StartSent?
    ensures run.states[i].stops[t].pc.meterStop == Register(run.opts, run.states[i].stops[t].pc.readTick)
    ensures run.states[j].starts[u].pc.meterStart == Register(run.opts, run.states[j].starts[u].pc.readTick)
  {
    AlwaysInRun(run, i);
    AlwaysInRun(run, j);
    assert StopGrounded(run.opts, run.states[i], t);
    assert StartGrounded(run.opts, run.states[j], u);
  }

  lemma RegisterDifference(opts: Options, a: nat, b: nat)
    ensures Register(opts, b) == Register(opts, a) + (b - a) * opts.meterStep
  {}

  /** Exactly the stops for identifier 0 name a transaction nobody confirmed. */
  lemma PhantomStopsAreZero(run: Run, i: nat, t: nat)
    requires IsRun(run) && i < |run.states| && t in run.states[i].stops
    ensures run.states[i].stops[t].transactionID !in run.states[i].confirmed
            <==> run.states[i].stops[t].transactionID == 0
  {
    AlwaysInRun(run, i);
    assert StopGrounded(run.opts, run.states[i], t);
    assert forall id :: id in run.states[i].confirmed ==> ConfirmedRead(run.opts, run.states[i], id);
  }

  /** Open transactions are distinct, so the search for a positive identifier
      finds one connector whatever order it looks in. */
  lemma SearchIsOrderFree(run: Run, i: nat, c: int, d: int)
    requires IsRun(run) && i < |run.states|
    requires c in run.states[i].core.connectors && d in run.states[i].core.connectors
    requires ConnectorAt(run, i, c).transactionID == ConnectorAt(run, i, d).transactionID != 0
    ensures c == d
  {
    AlwaysInRun(run, i);
    assert OpenGrounded(run.states[i], c) && OpenGrounded(run.states[i], d);
  }

  // ---------------------------------------------------------------------
  // Inoperative connectors, every run
  // ---------------------------------------------------------------------

  ghost predicate ReturnsToService(s: State, e: Event, c: int) {
    e.action.ChangeAvailabilityOf? && e.action.kind == Operative && c in Covered(s.core, e.action.connectorId)
  }

  ghost predicate Inactive(s: State, c: int) {
    c in s.core.connectors && s.core.connectors[c].availability == Inoperative
  }

  /** What an event may not do to an inoperative connector. */
  ghost predicate LeavesAlone(e: Event, c: int) {
    && (e.action.RemoteStart? ==> e.action.choice.NoConnector? || e.action.choice.connectorID != c)
    && (e.action.ReserveNow? && e.action.request.connectorId == c ==> e.action.verdict != ReserveAccepted)
  }

  /** The status either stays, or moves to Unavailable or a busy one. */
  ghost predicate SettlesUnavailable(s: State, s': State, c: int)
    requires c in s.core.connectors && c in s'.core.connectors
  {
    s'.core.connectors[c].status != s.core.connectors[c].status && IsIdle(s'.core.connectors[c].status) ==>
      s'.core.connectors[c].status == Unavailable
  }

  lemma InactiveStart(s: State, e: Event, s': State, c: int)
    requires StartNext(s, e, s') && Inactive(s, c)
    ensures Inactive(s', c) && LeavesAlone(e, c) && SettlesUnavailable(s, s', c)
  {
    match e.action
    case RemoteStart(t, requested, tag, choice) =>
      if choice.Chosen? {
        ChosenIsAcceptedByName(s.core, e.now, requested, tag, choice.connectorID, choice.reservationID);
      }
    case _ =>
  }

  lemma InactiveReserve(
      n: nat, s: State, request: ReserveRequest, checkedAt: int, verdict: ReserveAnswer, now: int, s': State, c: int)
    requires Shape(n, s.core) && ReserveStep(s, request, checkedAt, verdict, now, s') && Inactive(s, c)
    ensures Inactive(s', c) && SettlesUnavailable(s, s', c)
    ensures request.connectorId == c ==> verdict != ReserveAccepted
  {}

  lemma InactiveSweep(s: State, at: int, now: int, s': State, c: int)
    requires SweepStep(s, at, now, s') && Inactive(s, c)
    ensures Inactive(s', c) && SettlesUnavailable(s, s', c)
  {}

  lemma InactiveReservation(n: nat, s: State, e: Event, s': State, c: int)
    requires Shape(n, s.core) && ReservationNext(s, e, s') && Inactive(s, c)
    ensures Inactive(s', c) && LeavesAlone(e, c) && SettlesUnavailable(s, s', c)
  {
    match e.action
    case ReserveNow(request, checkedAt, verdict) => InactiveReserve(n, s, request, checkedAt, verdict, e.now, s', c);
    case Sweep(at) => InactiveSweep(s, at, e.now, s', c);
    case CancelReservation(_) =>
  }

  lemma InactiveStop(s: State, e: Event, s': State, c: int)
    requires StopNext(s, e, s') && Inactive(s, c)
    ensures Inactive(s', c) && LeavesAlone(e, c) && SettlesUnavailable(s, s', c)
  {}

  lemma InactiveStation(opts: Options, s: State, e: Event, s': State, c: int)
    requires StationNext(opts, s, e, s') && Inactive(s, c) && !ReturnsToService(s, e, c)
    ensures Inactive(s', c) && LeavesAlone(e, c) && SettlesUnavailable(s, s', c)
  {}

  lemma InactiveStep(opts: Options, s: State, e: Event, s': State, c: int)
    requires Always(opts, s) && Next(opts, s, e, s') && Inactive(s, c) && !ReturnsToService(s, e, c)
    ensures Inactive(s', c) && LeavesAlone(e, c) && SettlesUnavailable(s, s', c)
  {
    if StartNext(s, e, s') {
      InactiveStart(s, e, s', c);
    } else if StopNext(s, e, s') {
      InactiveStop(s, e, s', c);
    } else if ReservationNext(s, e, s') {
      InactiveReservation(opts.connectors, s, e, s', c);
    } else {
      InactiveStation(opts, s, e, s', c);
    }
  }

  /** From Inoperative until Operative nothing starts or reserves the
      connector, and whenever it goes back to an idle status that is
      Unavailable: `j` is any event in that stretch. */
  lemma {:induction false} InoperativeUntilOperative(run: Run, i: nat, j: nat, c: int)
    requires IsRun(run) && i <= j < |run.events| && Inactive(run.states[i], c)
    requires forall k :: i <= k <= j ==> !ReturnsToService(run.states[k], run.events[k], c)
    ensures Inactive(run.states[j], c) && Inactive(run.states[j + 1], c)
    ensures LeavesAlone(run.events[j], c)
    ensures SettlesUnavailable(run.states[j], run.states[j + 1], c)
    decreases j - i
  {
    if i < j {
      InoperativeUntilOperative(run, i, j - 1, c);
    }
    AlwaysInRun(run, j);
    assert StepAt(run, j);
    assert !ReturnsToService(run.states[j], run.events[j], c);
    InactiveStep(run.opts, run.states[j], run.events[j], run.states[j + 1], c);
  }

  /** Switching availability never touches the status of an open transaction. */
  lemma OpenTransactionKeepsStatus(s: State, id: int, kind: Availability, now: int, s': State, c: int)
    requires AvailabilityStep(s, id, kind, now, s')
    requires c in s.core.connectors && s.core.connectors[c].transactionID > 0
    ensures c in s'.core.connectors && s'.core.connectors[c] == s.core.connectors[c].(
      availability := if c in Covered(s.core, id) then kind else s.core.connectors[c].availability)
    ensures c in Covered(s.core, id) ==> AvailabilityAnswerFor(s.core, id) == AvailabilityScheduled
  {}

  /** The events that write to connector `c` although it is out of service. */
  ghost predicate Touches(s: State, e: Event, c: int) {
    match e.action
    case Reset => true
    case RemoteStop(_, _, found) => found == Some(c)
    case StopAnswered(t, confirmed) => confirmed && t in s.stops && s.stops[t].connectorID == c
    case AuthorizeAnswered(t, accepted) => !accepted && t in s.starts && s.starts[t].connectorID == c
    case StartAnswered(t, _) => t in s.starts && s.starts[t].connectorID == c
    case _ => false
  }

  /** The connector is out of service with this transaction open. */
  ghost predicate OpenWhileInactive(s: State, c: int, status: Status, id: int, tag: string) {
    && Inactive(s, c)
    && s.core.connectors[c].status == status
    && s.core.connectors[c].transactionID == id && id > 0
    && s.core.connectors[c].idTag == tag
  }

  lemma OpenStart(s: State, e: Event, s': State, c: int, status: Status, id: int, tag: string)
    requires StartNext(s, e, s') && OpenWhileInactive(s, c, status, id, tag) && !Touches(s, e, c)
    ensures OpenWhileInactive(s', c, status, id, tag)
  {
    InactiveStart(s, e, s', c);
  }

  lemma OpenReserve(
      n: nat, s: State, request: ReserveRequest, checkedAt: int, verdict: ReserveAnswer, now: int, s': State,
      c: int, status: Status, id: int, tag: string)
    requires Shape(n, s.core) && ReserveStep(s, request, checkedAt, verdict, now, s')
    requires OpenWhileInactive(s, c, status, id, tag)
    ensures OpenWhileInactive(s', c, status, id, tag)
  {}

  lemma OpenReservation(n: nat, s: State, e: Event, s': State, c: int, status: Status, id: int, tag: string)
    requires Shape(n, s.core) && ReservationNext(s, e, s') && OpenWhileInactive(s, c, status, id, tag)
    ensures OpenWhileInactive(s', c, status, id, tag)
  {
    match e.action
    case ReserveNow(request, checkedAt, verdict) =>
      OpenReserve(n, s, request, checkedAt, verdict, e.now, s', c, status, id, tag);
    case CancelReservation(_) =>
    case Sweep(at) =>
  }

  lemma OpenStation(opts: Options, s: State, e: Event, s': State, c: int, status: Status, id: int, tag: string)
    requires StationNext(opts, s, e, s') && OpenWhileInactive(s, c, status, id, tag)
    requires !Touches(s, e, c) && !ReturnsToService(s, e, c)
    ensures OpenWhileInactive(s', c, status, id, tag)
  {
    if e.action.ChangeAvailabilityOf? {
      OpenTransactionKeepsStatus(s, e.action.connectorId, e.action.kind, e.now, s', c);
    }
  }

  lemma OpenStop(s: State, e: Event, s': State, c: int, status: Status, id: int, tag: string)
    requires StopNext(s, e, s') && OpenWhileInactive(s, c, status, id, tag) && !Touches(s, e, c)
    ensures OpenWhileInactive(s', c, status, id, tag)
  {}

  lemma OpenStep(run: Run, j: nat, c: int, status: Status, id: int, tag: string)
    requires IsRun(run) && j < |run.events| && OpenWhileInactive(run.states[j], c, status, id, tag)
    requires !Touches(run.states[j], run.events[j], c) && !ReturnsToService(run.states[j], run.events[j], c)
    ensures OpenWhileInactive(run.states[j + 1], c, status, id, tag)
  {
    var s, e, s' := run.states[j], run.events[j], run.states[j + 1];
    AlwaysInRun(run, j);
    assert StepAt(run, j);
    if StartNext(s, e, s') {
      OpenStart(s, e, s', c, status, id, tag);
    } else if StopNext(s, e, s') {
      OpenStop(s, e, s', c, status, id, tag);
    } else if ReservationNext(s, e, s') {
      OpenReservation(run.opts.connectors, s, e, s', c, status, id, tag);
    } else {
      OpenStation(run.opts, s, e, s', c, status, id, tag);
    }
  }

  /** In every run, a connector out of service keeps the status, transaction
      and tag of an open transaction until it is Operative again or one of the
      touching events: a Reset, a RemoteStop for it, its confirmed stop, or the
      answer to a start that is still in flight on it. */
  lemma {:induction false} OpenTransactionStays(
      run: Run, i: nat, j: nat, c: int, status: Status, id: int, tag: string)
    requires IsRun(run) && i <= j < |run.states| && OpenWhileInactive(run.states[i], c, status, id, tag)
    requires forall k :: i <= k < j ==>
      !Touches(run.states[k], run.events[k], c) && !ReturnsToService(run.states[k], run.events[k], c)
    ensures OpenWhileInactive(run.states[j], c, status, id, tag)
    decreases j - i
  {
    if i < j {
      OpenTransactionStays(run, i, j - 1, c, status, id, tag);
      OpenStep(run, j - 1, c, status, id, tag);
    }
  }
}
