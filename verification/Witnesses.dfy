/** Every rule of the discipline is needed: for each, a run that obeys all the
    others and ends in a state the station should never be in. */
module Witnesses {
  import opened Station
  import opened Access
  import opened Protocol
  import opened EveryRun
  import opened Discipline

  /** A run that obeys every rule except perhaps `rule`. */
  ghost predicate ObeysAllBut(run: Run, rule: Rule) {
    && IsRun(run)
    && forall i, other :: 0 <= i < |run.events| && other != rule ==> Obeys(other, run.states[i], run.events[i].action)
  }

  ghost function Last(run: Run): State
    requires run.states != []
  {
    run.states[|run.states| - 1]
  }

  ghost function Then(run: Run, e: Event, s': State): Run {
    run.(states := run.states + [s'], events := run.events + [e])
  }

  lemma Extend(run: Run, rule: Rule, e: Event, s': State)
    requires ObeysAllBut(run, rule) && Next(run.opts, Last(run), e, s')
    requires forall other :: other != rule ==> Obeys(other, Last(run), e.action)
    ensures ObeysAllBut(Then(run, e, s'), rule)
  {
    var longer := Then(run, e, s');
    var n := |run.events|;
    forall i | 0 <= i < |longer.events|
      ensures StepAt(longer, i)
      ensures forall other :: other != rule ==> Obeys(other, longer.states[i], longer.events[i].action)
    {
      if i < n {
        assert longer.states[i] == run.states[i] && longer.events[i] == run.events[i];
        assert longer.states[i + 1] == run.states[i + 1];
        assert StepAt(run, i);
      } else {
        assert longer.states[i] == Last(run) && longer.events[i] == e && longer.states[i + 1] == s';
      }
    }
  }

  lemma Empty(rule: Rule, connectors: nat) returns (run: Run)
    requires connectors > 0
    ensures run == Run(Options(connectors, 0, 0), [Init(Options(connectors, 0, 0), 0)], [])
    ensures ObeysAllBut(run, rule)
  {
    run := Run(Options(connectors, 0, 0), [Init(Options(connectors, 0, 0), 0)], []);
  }

  /** Without reservations everybody is granted. */
  lemma GrantedWithoutReservations(now: int, c: int, tag: string)
    ensures MayGrant(map[], now, c, tag, 0)
  {}

  /** An accepted ReserveNow; `base` is the store without its identifier. */
  lemma Reserves(before: Run, rule: Rule, request: ReserveRequest, base: Core) returns (run: Run)
    requires ObeysAllBut(before, rule) && FutureExpiry(request, Last(before).now)
    requires StoreShape(Last(before).core)
    requires base == Released(Last(before).core, request.reservationId, Last(before).now)
    requires ReserveMayAnswer(base, Last(before).now, request, ReserveAccepted)
    requires request.connectorId > 0 ==> request.connectorId in base.connectors
    requires forall other :: other != rule ==>
      Obeys(other, Last(before), ReserveNow(request, Last(before).now, ReserveAccepted))
    ensures ObeysAllBut(run, rule) && run.opts == before.opts
    ensures var s := Last(before);
      && run.events == before.events + [Event(ReserveNow(request, s.now, ReserveAccepted), s.now)]
      && run.states == before.states + [Last(run)]
      && Last(run) == s.(core := Stored(base, request),
                         serials := WithCore(s, base).serials[request.reservationId := s.nextSerial],
                         nextSerial := s.nextSerial + 1)
  {
    var s := Last(before);
    var e := Event(ReserveNow(request, s.now, ReserveAccepted), s.now);
    var s' := s.(core := Stored(base, request),
                 serials := WithCore(s, base).serials[request.reservationId := s.nextSerial],
                 nextSerial := s.nextSerial + 1);
    assert GrantedStep(s, base, request, s.now, s');
    assert ReservationNext(s, e, s');
    Extend(before, rule, e, s');
    run := Then(before, e, s');
  }

  /** A start in flight on connector 1. */
  lemma StartInFlight(rule: Rule) returns (run: Run)
    ensures ObeysAllBut(run, rule) && run.opts == Options(1, 0, 0)
    ensures Last(run) == Init(run.opts, 0).(
      core := BeginStart(InitialCore(run.opts), 1, "A"),
      starts := map[0 := StartThread(1, "A", 0, None, Begun)])
  {
    run := Empty(rule, 1);
    var s := Last(run);
    var e := Event(RemoteStart(0, Some(1), "A", Chosen(1, 0)), 0);
    var s' := s.(core := BeginStart(s.core, 1, "A"), starts := map[0 := StartThread(1, "A", 0, None, Begun)]);
    GrantedWithoutReservations(0, 1, "A");
    assert MayChoose(s.core, 0, Some(1), "A", Chosen(1, 0));
    assert StartBegunStep(s, 0, "A", 1, 0, 0, s');
    assert StartNext(s, e, s');
    Extend(run, rule, e, s');
    run := Then(run, e, s');
  }

  /** The status shown for connector `c`. */
  ghost predicate Shows(s: State, c: int, status: Status) {
    c in s.core.connectors && s.core.connectors[c].status == status
  }

  /** A ChangeAvailability to Operative on a connector whose start is in
      flight shows it Available under the start. */
  lemma AvailabilityDuringStart() returns (run: Run)
    ensures ObeysAllBut(run, NoAvailabilityDuringStart)
    ensures Shows(Last(run), 1, Available) && Starting(Last(run), 1)
  {
    run := StartInFlight(NoAvailabilityDuringStart);
    var s := Last(run);
    var e := Event(ChangeAvailabilityOf(1, Operative), 0);
    var s' := WithCore(s, ChangeAvailability(s.core, 1, Operative, 0)).(now := 0);
    assert StationNext(run.opts, s, e, s');
    Extend(run, NoAvailabilityDuringStart, e, s');
    run := Then(run, e, s');
    assert 0 in s'.starts && s'.starts[0].connectorID == 1;
  }

  /** A Reset does the same. */
  lemma ResetDuringStart() returns (run: Run)
    ensures ObeysAllBut(run, NoResetInFlight)
    ensures Shows(Last(run), 1, Available) && Starting(Last(run), 1)
  {
    run := StartInFlight(NoResetInFlight);
    var s := Last(run);
    var e := Event(Reset, 0);
    var s' := s.(core := ResetAll(s.core, 0), clearedByReset := s.clearedByReset + |OpenConnectors(s.core)|);
    assert StationNext(run.opts, s, e, s');
    Extend(run, NoResetInFlight, e, s');
    run := Then(run, e, s');
    assert 0 in s'.starts && s'.starts[0].connectorID == 1;
  }

  /** A RemoteStop for identifier 0 finds a connector without a transaction,
      shows it Finishing, and a StopTransaction for 0 is sent. */
  lemma StopOfZero() returns (run: Run)
    ensures ObeysAllBut(run, NoStopOfZero)
    ensures Shows(Last(run), 1, Finishing) && Last(run).core.connectors[1].transactionID == 0
    ensures exists t :: t in Last(run).stops && Last(run).stops[t].transactionID == 0 && Last(run).stops[t].pc.StopSent?
  {
    run := Empty(NoStopOfZero, 1);
    run := Sends(run, NoStopOfZero, 0, 1, 0);
  }

  /** It need not be idle: it can be the connector of a start in flight. */
  lemma StopOfZeroDuringStart() returns (run: Run)
    ensures ObeysAllBut(run, NoStopOfZero)
    ensures Shows(Last(run), 1, Finishing) && Starting(Last(run), 1)
    ensures exists t :: t in Last(run).stops && Last(run).stops[t].transactionID == 0 && Last(run).stops[t].pc.StopSent?
  {
    run := StartInFlight(NoStopOfZero);
    run := Sends(run, NoStopOfZero, 0, 1, 0);
    assert 0 in Last(run).starts && Last(run).starts[0].connectorID == 1;
  }

  // ---------------------------------------------------------------------
  // The station's own sweep
  // ---------------------------------------------------------------------

  const EXPIRING := ReserveRequest(1, 7, "A", "", Some(1))

  /** The first events also obey the rule on removals. */
  ghost predicate RemovesNothingBusy(run: Run, n: nat)
    requires n <= |run.events| <= |run.states|
  {
    forall i :: 0 <= i < n ==> Obeys(NoRemovalWhileBusy, run.states[i], run.events[i].action)
  }

  lemma ExpiringReservation() returns (run: Run)
    ensures ObeysAllBut(run, NoRemovalWhileBusy) && run.opts == Options(1, 0, 0) && |run.events| == 1
    ensures RemovesNothingBusy(run, 1)
    ensures Last(run) == Init(run.opts, 0).(
      core := Stored(InitialCore(run.opts), EXPIRING), serials := map[7 := 0], nextSerial := 1)
  {
    run := Empty(NoRemovalWhileBusy, 1);
    var s := Last(run);
    assert Released(s.core, 7, 0) == s.core;
    assert WithCore(s, s.core) == s;
    assert NamedReserveAnswer(s.core, 1) == ReserveAccepted;
    run := Reserves(run, NoRemovalWhileBusy, EXPIRING, s.core);
  }

  lemma StartedAfterExpiry() returns (run: Run)
    ensures ObeysAllBut(run, NoRemovalWhileBusy) && |run.events| == 2
    ensures RemovesNothingBusy(run, 2)
    ensures Last(run) == Init(Options(1, 0, 0), 0).(
      core := BeginStart(Stored(InitialCore(Options(1, 0, 0)), EXPIRING), 1, "B"),
      starts := map[0 := StartThread(1, "B", 0, None, Begun)],
      serials := map[7 := 0], nextSerial := 1, now := 2)
  {
    run := ExpiringReservation();
    var s := Last(run);
    var e := Event(RemoteStart(0, Some(1), "B", Chosen(1, 0)), 2);
    var s' := s.(core := BeginStart(s.core, 1, "B"), starts := map[0 := StartThread(1, "B", 0, None, Begun)], now := 2);
    assert MayGrant(s.core.reservations, 2, 1, "B", 0);
    assert MayChoose(s.core, 2, Some(1), "B", Chosen(1, 0));
    assert StartBegunStep(s, 0, "B", 1, 0, 2, s');
    assert StartNext(s, e, s');
    Extend(run, NoRemovalWhileBusy, e, s');
    run := Then(run, e, s');
  }

  lemma SweptStatus(core: Core)
    requires core.connectors.Keys == {1} && core.connectors[1].availability == Operative
    requires core.reservations == map[7 := Reservation(1, "A", "", 1)]
    ensures 1 in Swept(core, 2, 2).connectors && Swept(core, 2, 2).connectors[1].status == Available
  {
    assert 7 in Expired(core, 2);
    assert LosesReservation(core, 1, 2) by { assert core.reservations[7].connectorID == 1; }
    assert core.reservations - Expired(core, 2) == map[];
  }

  /** The central system does nothing wrong: a reservation expires, the
      connector is started for another tag before the sweep has removed it,
      and the sweep shows the connector Available under the start. */
  lemma SweepDuringStart() returns (run: Run)
    ensures ObeysAllBut(run, NoRemovalWhileBusy)
    ensures Shows(Last(run), 1, Available) && Starting(Last(run), 1)
    ensures |run.events| == 3 && run.events[2].action.Sweep?
    ensures Disciplined(run.states[0], run.events[0].action) && Disciplined(run.states[1], run.events[1].action)
  {
    run := StartedAfterExpiry();
    var s := Last(run);
    var e := Event(Sweep(2), 2);
    var s' := WithCore(s, Swept(s.core, 2, 2)).(now := 2);
    assert ReservationNext(s, e, s');
    Extend(run, NoRemovalWhileBusy, e, s');
    run := Then(run, e, s');
    SweptStatus(s.core);
    assert 0 in s'.starts && s'.starts[0].connectorID == 1;
  }

  // ---------------------------------------------------------------------
  // Reusing the identifier a start holds
  // ---------------------------------------------------------------------

  const ANYWHERE := ReserveRequest(0, 5, "A", "", Some(9))
  const ELSEWHERE := ReserveRequest(2, 5, "B", "", Some(9))
  const TWO := Options(2, 0, 0)

  lemma HeldAnywhere() returns (run: Run)
    ensures ObeysAllBut(run, NoReuseWhileHeld) && run.opts == TWO
    ensures Last(run) == Init(TWO, 0).(
      core := BeginStart(Stored(InitialCore(TWO), ANYWHERE), 1, "A"),
      starts := map[0 := StartThread(1, "A", 5, Some(Hold(Reservation(0, "A", "", 9), 0)), Begun)],
      serials := map[5 := 0], nextSerial := 1)
  {
    run := Empty(NoReuseWhileHeld, 2);
    var s := Last(run);
    assert Released(s.core, 5, 0) == s.core && WithCore(s, s.core) == s;
    assert Eligible(s.core, 1) && MayGrant(s.core.reservations, 0, 1, "A", 0);
    run := Reserves(run, NoReuseWhileHeld, ANYWHERE, s.core);
    run := StartsHolding(run);
  }

  lemma StartsHolding(before: Run) returns (run: Run)
    requires ObeysAllBut(before, NoReuseWhileHeld) && before.opts == TWO
    requires Last(before) == Init(TWO, 0).(
      core := Stored(InitialCore(TWO), ANYWHERE), serials := map[5 := 0], nextSerial := 1)
    ensures ObeysAllBut(run, NoReuseWhileHeld) && run.opts == TWO
    ensures Last(run) == Last(before).(
      core := BeginStart(Last(before).core, 1, "A"),
      starts := map[0 := StartThread(1, "A", 5, Some(Hold(Reservation(0, "A", "", 9), 0)), Begun)])
  {
    var s := Last(before);
    var e := Event(RemoteStart(0, Some(1), "A", Chosen(1, 5)), 0);
    var thread := StartThread(1, "A", 5, Some(Hold(Reservation(0, "A", "", 9), 0)), Begun);
    var s' := s.(core := BeginStart(s.core, 1, "A"), starts := map[0 := thread]);
    assert Counts(s.core.reservations, 5, 0, 1);
    assert MayGrant(s.core.reservations, 0, 1, "A", 5);
    assert MayChoose(s.core, 0, Some(1), "A", Chosen(1, 5));
    assert StartBegunStep(s, 0, "A", 1, 5, 0, s');
    assert StartNext(s, e, s');
    Extend(before, NoReuseWhileHeld, e, s');
    run := Then(before, e, s');
  }

  /** The identifier moves to connector 2 while the start on connector 1 holds
      it. */
  lemma MovesHeld(before: Run) returns (run: Run)
    requires ObeysAllBut(before, NoReuseWhileHeld) && before.opts == TWO
    requires Last(before) == Init(TWO, 0).(
      core := BeginStart(Stored(InitialCore(TWO), ANYWHERE), 1, "A"),
      starts := map[0 := StartThread(1, "A", 5, Some(Hold(Reservation(0, "A", "", 9), 0)), Begun)],
      serials := map[5 := 0], nextSerial := 1)
    ensures ObeysAllBut(run, NoReuseWhileHeld)
    ensures Last(run) == Last(before).(
      core := Last(before).core.(connectors := Last(run).core.connectors,
                                 reservations := map[5 := Reservation(2, "B", "", 9)]),
      serials := map[5 := 1], nextSerial := 2)
    ensures Last(run).core.connectors.Keys == {1, 2} && Shows(Last(run), 2, Reserved)
  {
    var s := Last(before);
    var moved := s.core.(reservations := map[]);
    MovedReservation(s.core);
    run := Reserves(before, NoReuseWhileHeld, ELSEWHERE, moved);
  }

  /** Releasing the connector-zero reservation leaves connector 2 free. */
  lemma MovedReservation(core: Core)
    requires core.reservations == map[5 := Reservation(0, "A", "", 9)]
    requires 0 !in core.connectors
    requires 2 in core.connectors && core.connectors[2] == Connector(Operative, Available, 0, "", 0)
    ensures StoreShape(core) && Released(core, 5, 0) == core.(reservations := map[])
    ensures ReserveMayAnswer(core.(reservations := map[]), 0, ELSEWHERE, ReserveAccepted)
  {
    assert 5 in core.reservations && core.reservations[5].connectorID == 0;
    var left: map<int, Reservation> := map[];
    assert core.reservations - {5} == left;
    assert Unbound(left, 2);
    assert NamedReserveAnswer(core.(reservations := map[]), 2) == ReserveAccepted;
  }

  /** Accepting the start then takes connector 2's reservation, which goes on
      being shown Reserved with nothing reserved. */
  lemma ReuseWhileHeld() returns (run: Run)
    ensures ObeysAllBut(run, NoReuseWhileHeld)
    ensures Shows(Last(run), 2, Reserved) && Unbound(Last(run).core.reservations, 2)
  {
    run := HeldAnywhere();
    run := MovesHeld(run);
    run := TakesTransaction(run, NoReuseWhileHeld, 0, 1);
  }

  /** Take the start goroutine `t` from its beginning to an accepted
      transaction. */
  lemma TakesTransaction(before: Run, rule: Rule, t: nat, id: int) returns (run: Run)
    requires ObeysAllBut(before, rule)
    requires StartAt(Last(before), t) && Last(before).starts[t].pc.Begun? && !Last(before).core.authorizeRemote
    requires id > 0 && id !in Last(before).confirmed
    ensures ObeysAllBut(run, rule) && run.opts == before.opts
    ensures var s, c := Last(before), Last(before).starts[t].connectorID;
      && Last(run).core == AcceptStart(s.core, c, id, s.starts[t].reservationID)
      && Last(run).starts == s.starts - {t} && Last(run).stops == s.stops && Last(run).now == s.now
      && Last(run).acceptedStarts == s.acceptedStarts + 1
      && Last(run).confirmedStops == s.confirmedStops && Last(run).clearedByReset == s.clearedByReset
  {
    var s := Last(before);
    var c := s.starts[t].connectorID;
    var s1 := s.(starts := s.starts[t := s.starts[t].(pc := Cleared)]);
    var e1 := Event(StartReadsConfiguration(t), s.now);
    assert StartNext(s, e1, s1);
    Extend(before, rule, e1, s1);
    run := Then(before, e1, s1);
    var s2 := s1.(starts := s1.starts[t := s1.starts[t].(pc := StartSent(s1.core.connectors[c].meter, s1.ticks))]);
    var e2 := Event(StartReadsMeter(t), s.now);
    assert StartNext(s1, e2, s2);
    Extend(run, rule, e2, s2);
    run := Then(run, e2, s2);
    run := AcceptAnswered(run, rule, t, id);
  }

  lemma AcceptAnswered(before: Run, rule: Rule, t: nat, id: int) returns (run: Run)
    requires ObeysAllBut(before, rule)
    requires StartAt(Last(before), t) && Last(before).starts[t].pc.StartSent?
    requires id > 0 && id !in Last(before).confirmed
    ensures ObeysAllBut(run, rule) && run.opts == before.opts
    ensures StartAcceptedStep(Last(before), t, id, Last(before).now, Last(run))
  {
    var s := Last(before);
    var start := s.starts[t];
    var e := Event(StartAnswered(t, StartAccepted(id)), s.now);
    var s' := WithCore(s, AcceptStart(s.core, start.connectorID, id, start.reservationID)).(
      starts := s.starts - {t},
      confirmed := s.confirmed[id := Confirmed(start.connectorID, start.idTag, start.pc.meterStart, start.pc.readTick)],
      acceptedStarts := s.acceptedStarts + 1,
      backings := if start.hold.Some? then s.backings + [Backing(start.hold.value, id)] else s.backings);
    assert StartAcceptedStep(s, t, id, s.now, s');
    assert StartNext(s, e, s');
    Extend(before, rule, e, s');
    run := Then(before, e, s');
  }

  // ---------------------------------------------------------------------
  // Two stops for one transaction
  // ---------------------------------------------------------------------

  /** Ask for a stop of the transaction `id` on connector `c`, let goroutine
      `t` send it. */
  lemma Sends(before: Run, rule: Rule, t: nat, c: int, id: int) returns (run: Run)
    requires ObeysAllBut(before, rule) && rule == if id == 0 then NoStopOfZero else NoSecondStop
    requires id == 0 ==> Last(before).stops == map[]
    requires t !in Last(before).stops && c in Last(before).core.connectors
    requires Last(before).core.connectors[c].transactionID == id
    ensures ObeysAllBut(run, rule) && run.opts == before.opts
    ensures var s := Last(before);
      && Last(run).core == WithStatus(s.core, c, Finishing) && Last(run).now == s.now
      && t in Last(run).stops && Last(run).stops[t].connectorID == c && Last(run).stops[t].transactionID == id
      && Last(run).stops[t].pc.StopSent?
      && Last(run).starts == s.starts
      && Last(run).stops.Keys == s.stops.Keys + {t}
      && (forall u :: u in s.stops ==> Last(run).stops[u] == s.stops[u])
      && Last(run).acceptedStarts == s.acceptedStarts
      && Last(run).confirmedStops == s.confirmedStops && Last(run).clearedByReset == s.clearedByReset
  {
    var s := Last(before);
    var e1 := Event(RemoteStop(t, id, Some(c)), s.now);
    var s1 := s.(core := WithStatus(s.core, c, Finishing), stops := s.stops[t := StopThread(c, id, StopBegun)]);
    assert StopBegunStep(s, t, id, c, s.now, s1);
    assert StopNext(s, e1, s1);
    Extend(before, rule, e1, s1);
    run := Then(before, e1, s1);
    var connector := s1.core.connectors[c];
    var e2 := Event(StopReadsMeter(t), s.now);
    var s2 := s1.(stops := s1.stops[t := s1.stops[t].(pc := StopSent(connector.meter, connector.idTag, s1.ticks))]);
    assert StopNext(s1, e2, s2);
    Extend(run, rule, e2, s2);
    run := Then(run, e2, s2);
  }

  lemma ConfirmsStop(before: Run, t: nat) returns (run: Run)
    requires ObeysAllBut(before, NoSecondStop) && StopAt(Last(before), t) && Last(before).stops[t].pc.StopSent?
    ensures ObeysAllBut(run, NoSecondStop) && run.opts == before.opts
    ensures StopAnswerStep(Last(before), t, true, Last(before).now, Last(run))
  {
    var s := Last(before);
    var e := Event(StopAnswered(t, true), s.now);
    var s' := s.(core := ConfirmStop(s.core, s.stops[t].connectorID, s.now),
                 stops := s.stops - {t}, confirmedStops := s.confirmedStops + 1);
    assert StopNext(s, e, s');
    Extend(before, NoSecondStop, e, s');
    run := Then(before, e, s');
  }

  /** Two RemoteStops for one transaction are both sent and both confirmed: two
      transactions end where one began. */
  lemma SecondStop() returns (run: Run)
    ensures ObeysAllBut(run, NoSecondStop)
    ensures Last(run).acceptedStarts == 1 && Last(run).confirmedStops == 2 && Last(run).clearedByReset == 0
  {
    run := StartInFlight(NoSecondStop);
    run := TakesTransaction(run, NoSecondStop, 0, 1);
    run := Sends(run, NoSecondStop, 0, 1, 1);
    run := Sends(run, NoSecondStop, 1, 1, 1);
    run := ConfirmsStop(run, 0);
    run := ConfirmsStop(run, 1);
  }

  lemma ShownIdleWhileStarting(s: State, c: int)
    requires Starting(s, c) && Shows(s, c, Available)
    ensures !Agreement(s)
  {
    var t :| t in s.starts && s.starts[t].connectorID == c;
    assert !StartAgrees(s, t);
  }

  /** No rule can be dropped: obeying the other five leads to a state that is
      not in agreement. */
  lemma EveryRuleIsNeeded(rule: Rule) returns (run: Run)
    ensures ObeysAllBut(run, rule) && !Agreement(Last(run))
  {
    match rule
    case NoAvailabilityDuringStart =>
      run := AvailabilityDuringStart();
      ShownIdleWhileStarting(Last(run), 1);
    case NoResetInFlight =>
      run := ResetDuringStart();
      ShownIdleWhileStarting(Last(run), 1);
    case NoRemovalWhileBusy =>
      run := SweepDuringStart();
      ShownIdleWhileStarting(Last(run), 1);
    case NoReuseWhileHeld =>
      run := ReuseWhileHeld();
      assert !ConnectorAgrees(Last(run), 2);
    case NoSecondStop =>
      run := SecondStop();
    case NoStopOfZero =>
      run := StopOfZero();
      assert !ConnectorAgrees(Last(run), 1);
  }
}
