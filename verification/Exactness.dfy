/** The discipline is not just enough: a step from a state in agreement leaves
    the agreement exactly when it breaks a rule, so a run stays in agreement
    exactly as long as it is disciplined. */
module Exactness {
  import opened Station
  import opened Access
  import opened Protocol
  import opened EveryRun
  import opened Discipline
  import opened Holding

  // ---------------------------------------------------------------------
  // What a broken rule does
  // ---------------------------------------------------------------------

  /** Connector `c` is shown idle although it is busy. */
  lemma IdleThoughBusy(s: State, s': State, c: int)
    requires Busy(s, c) && c in s.core.connectors && c in s'.core.connectors
    requires s'.starts == s.starts
    requires s'.core.connectors[c].transactionID == s.core.connectors[c].transactionID
    requires IsIdle(s'.core.connectors[c].status)
    ensures !Agreement(s')
  {
    if s.core.connectors[c].transactionID > 0 {
      assert !ConnectorAgrees(s', c);
    } else {
      var t :| t in s.starts && s.starts[t].connectorID == c;
      assert !StartAgrees(s', t);
    }
  }

  lemma AvailabilityBreaks(s: State, id: int, kind: Availability, now: int, s': State)
    requires Agreement(s) && AvailabilityStep(s, id, kind, now, s')
    requires !Obeys(NoAvailabilityDuringStart, s, ChangeAvailabilityOf(id, kind))
    ensures !Agreement(s')
  {
    var t :| t in s.starts && s.starts[t].connectorID in Covered(s.core, id);
    assert StartAgrees(s, t) && ConnectorAgrees(s, s.starts[t].connectorID);
    assert t in s'.starts && !StartAgrees(s', t);
  }

  lemma SomeThread<T>(threads: map<nat, T>) returns (t: nat)
    requires threads != map[]
    ensures t in threads
  {
    assert threads.Keys != {};
    t :| t in threads.Keys;
  }

  lemma ResetBreaks(s: State, now: int, s': State)
    requires Agreement(s) && ResetStep(s, now, s') && !Obeys(NoResetInFlight, s, Reset)
    ensures !Agreement(s')
  {
    if s.starts != map[] {
      var t := SomeThread(s.starts);
      assert StartAgrees(s, t);
      assert !StartAgrees(s', t);
    } else {
      var t := SomeThread(s.stops);
      assert StopAgrees(s, t);
      assert !StopAgrees(s', t);
    }
  }

  /** Releasing a reservation makes its connector idle. */
  lemma ReleasedIsIdle(core: Core, r: int, now: int)
    requires StoreShape(core) && r in core.reservations && core.reservations[r].connectorID > 0
    ensures var c, left := core.reservations[r].connectorID, Released(core, r, now);
      && c in core.connectors && c in left.connectors && IsIdle(left.connectors[c].status)
      && left.connectors[c].transactionID == core.connectors[c].transactionID
  {}

  lemma BoundIsPositive(opts: Options, s: State, r: int)
    requires Always(opts, s) && r in s.core.reservations && s.core.reservations[r].connectorID != 0
    ensures s.core.reservations[r].connectorID > 0 && s.core.reservations[r].connectorID in s.core.connectors
  {}

  lemma CancelBreaks(opts: Options, s: State, id: int, now: int, s': State)
    requires Always(opts, s) && CancelStep(s, id, now, s') && BoundToBusy(s, id)
    ensures !Agreement(s')
  {
    BoundIsPositive(opts, s, id);
    ReleasedIsIdle(s.core, id, now);
    IdleThoughBusy(s, s', s.core.reservations[id].connectorID);
  }

  lemma ReserveRemoves(
      opts: Options, s: State, request: ReserveRequest, checkedAt: int, verdict: ReserveAnswer, now: int, s': State)
    requires Always(opts, s) && ReserveStep(s, request, checkedAt, verdict, now, s')
    requires FutureExpiry(request, checkedAt) && BoundToBusy(s, request.reservationId)
    ensures !Agreement(s')
  {
    var c := s.core.reservations[request.reservationId].connectorID;
    BoundIsPositive(opts, s, request.reservationId);
    ReleasedIsIdle(s.core, request.reservationId, now);
    IdleThoughBusy(s, s', c);
  }

  lemma SweepBreaks(opts: Options, s: State, at: int, now: int, s': State, r: int)
    requires Always(opts, s) && SweepStep(s, at, now, s') && r in Expired(s.core, at) && BoundToBusy(s, r)
    ensures !Agreement(s')
  {
    var c := s.core.reservations[r].connectorID;
    BoundIsPositive(opts, s, r);
    assert LosesReservation(s.core, c, at);
    IdleThoughBusy(s, s', c);
  }

  /** The stored reservation is no longer the one the start holds. */
  lemma ReuseBreaks(s: State, request: ReserveRequest, checkedAt: int, now: int, s': State)
    requires Held(s) && ReserveStep(s, request, checkedAt, ReserveAccepted, now, s')
    requires !Obeys(NoReuseWhileHeld, s, ReserveNow(request, checkedAt, ReserveAccepted))
    ensures !Agreement(s')
  {
    var t :| t in s.starts && s.starts[t].hold.Some? && s.starts[t].reservationID == request.reservationId;
    assert HoldAgrees(s, t);
    assert s'.serials[request.reservationId] == s.nextSerial;
    assert t in s'.starts && !HoldAgrees(s', t);
  }

  /** Two stops for one transaction are on one connector. */
  lemma SecondStopBreaks(opts: Options, s: State, t: nat, id: int, found: Option<int>, now: int, s': State)
    requires Always(opts, s) && Agreement(s) && RemoteStopStep(s, t, id, found, now, s')
    requires !Obeys(NoSecondStop, s, RemoteStop(t, id, found))
    ensures !Agreement(s')
  {
    var u :| u in s.stops && s.stops[u].transactionID == id;
    var c := s.stops[u].connectorID;
    assert StopAgrees(s, u) && ConnectorAgrees(s, c);
    assert found.Some?;
    assert OpenGrounded(s, c) && OpenGrounded(s, found.value);
    assert u in s'.stops && t in s'.stops && s'.stops[t].connectorID == s'.stops[u].connectorID;
  }

  lemma StopOfZeroBreaks(s: State, t: nat, found: Option<int>, now: int, s': State)
    requires RemoteStopStep(s, t, 0, found, now, s') && !Obeys(NoStopOfZero, s, RemoteStop(t, 0, found))
    ensures !Agreement(s')
  {
    assert !ConnectorAgrees(s', found.value);
  }

  // ---------------------------------------------------------------------
  // The exact condition
  // ---------------------------------------------------------------------

  lemma ReservationBreaks(opts: Options, s: State, e: Event, s': State)
    requires Always(opts, s) && Agreement(s) && ReservationNext(s, e, s')
    requires !Obeys(NoRemovalWhileBusy, s, e.action) || !Obeys(NoReuseWhileHeld, s, e.action)
    ensures !Agreement(s')
  {
    match e.action
    case CancelReservation(id) => CancelBreaks(opts, s, id, e.now, s');
    case Sweep(at) =>
      var r :| r in Expired(s.core, at) && BoundToBusy(s, r);
      SweepBreaks(opts, s, at, e.now, s', r);
    case ReserveNow(request, checkedAt, verdict) =>
      if FutureExpiry(request, checkedAt) && BoundToBusy(s, request.reservationId) {
        ReserveRemoves(opts, s, request, checkedAt, verdict, e.now, s');
      } else {
        ReuseBreaks(s, request, checkedAt, e.now, s');
      }
  }

  lemma StopBreaks(opts: Options, s: State, e: Event, s': State)
    requires Always(opts, s) && Agreement(s) && StopNext(s, e, s')
    requires !Obeys(NoSecondStop, s, e.action) || !Obeys(NoStopOfZero, s, e.action)
    ensures !Agreement(s')
  {
    if !Obeys(NoStopOfZero, s, e.action) {
      StopOfZeroBreaks(s, e.action.thread, e.action.found, e.now, s');
    } else {
      SecondStopBreaks(opts, s, e.action.thread, e.action.transactionId, e.action.found, e.now, s');
    }
  }

  lemma StationBreaks(opts: Options, s: State, e: Event, s': State)
    requires Agreement(s) && StationNext(opts, s, e, s')
    requires !Obeys(NoAvailabilityDuringStart, s, e.action) || !Obeys(NoResetInFlight, s, e.action)
    ensures !Agreement(s')
  {
    if e.action.Reset? {
      ResetBreaks(s, e.now, s');
    } else {
      AvailabilityBreaks(s, e.action.connectorId, e.action.kind, e.now, s');
    }
  }

  /** Start goroutines break no rule. */
  lemma StartsObey(s: State, e: Event, s': State, rule: Rule)
    requires StartNext(s, e, s')
    ensures Obeys(rule, s, e.action)
  {}

  lemma StepBreaks(opts: Options, s: State, e: Event, s': State, rule: Rule)
    requires Always(opts, s) && Agreement(s) && Next(opts, s, e, s') && !Obeys(rule, s, e.action)
    ensures !Agreement(s')
  {
    if StartNext(s, e, s') {
      StartsObey(s, e, s', rule);
    } else if StopNext(s, e, s') {
      StopBreaks(opts, s, e, s');
    } else if ReservationNext(s, e, s') {
      ReservationBreaks(opts, s, e, s');
    } else {
      StationBreaks(opts, s, e, s');
    }
  }

  /** From a state in agreement, a step keeps the agreement exactly when it
      breaks no rule. */
  lemma StepKeepsAgreementExactly(opts: Options, s: State, e: Event, s': State)
    requires Always(opts, s) && Agreement(s) && Next(opts, s, e, s')
    ensures Agreement(s') <==> Disciplined(s, e.action)
  {
    if Disciplined(s, e.action) {
      StepKeepsAgreement(opts, s, e, s');
    } else {
      var rule :| !Obeys(rule, s, e.action);
      StepBreaks(opts, s, e, s', rule);
    }
  }

  lemma EventKeepsAgreementExactly(run: Run, i: nat)
    requires IsRun(run) && i < |run.events| && Agreement(run.states[i])
    ensures Agreement(run.states[i + 1]) <==> DisciplinedAt(run, i)
  {
    AlwaysInRun(run, i);
    assert StepAt(run, i);
    StepKeepsAgreementExactly(run.opts, run.states[i], run.events[i], run.states[i + 1]);
  }

  ghost predicate DisciplinedUntil(run: Run, n: nat)
    requires n <= |run.events| < |run.states|
  {
    forall i :: 0 <= i < n ==> DisciplinedAt(run, i)
  }

  ghost predicate AgreesUntil(run: Run, n: nat)
    requires n < |run.states|
  {
    forall i :: 0 <= i <= n ==> Agreement(run.states[i])
  }

  lemma {:induction false} AgreesIfDisciplined(run: Run, n: nat, i: nat)
    requires IsRun(run) && i <= n <= |run.events| && DisciplinedUntil(run, n)
    ensures Agreement(run.states[i])
  {
    if i == 0 {
      InitialAgreement(run.opts, run.states[0].now);
    } else {
      AgreesIfDisciplined(run, n, i - 1);
      assert DisciplinedAt(run, i - 1);
      EventKeepsAgreementExactly(run, i - 1);
    }
  }

  /** A run is in agreement up to a point exactly when its events up to there
      break no rule: the first event that breaks one is the first to leave the
      agreement. */
  lemma AgreementExactly(run: Run, n: nat)
    requires IsRun(run) && n <= |run.events|
    ensures AgreesUntil(run, n) <==> DisciplinedUntil(run, n)
  {
    if DisciplinedUntil(run, n) {
      forall i: nat | i <= n
        ensures Agreement(run.states[i])
      {
        AgreesIfDisciplined(run, n, i);
      }
    }
    if AgreesUntil(run, n) {
      forall i: nat | i < n
        ensures DisciplinedAt(run, i)
      {
        EventKeepsAgreementExactly(run, i);
      }
    }
  }
}
