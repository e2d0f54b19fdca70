/** The rest of the agreement: reservations held by starts, tags, reservations
    that back transactions, and the count of open transactions. */
module Holding {
  import opened Station
  import opened Access
  import opened Protocol
  import opened EveryRun
  import opened Discipline

  // ---------------------------------------------------------------------
  // Held reservations
  // ---------------------------------------------------------------------

  ghost predicate SameStart(a: StartThread, b: StartThread) {
    a.connectorID == b.connectorID && a.idTag == b.idTag && a.reservationID == b.reservationID && a.hold == b.hold
  }

  /** The stored reservation a start holds is not replaced, and not dropped
      when it is bound to a connector. */
  ghost predicate KeepsHold(s: State, s': State, start: StartThread) {
    s.nextSerial <= s'.nextSerial && (start.hold.Some? ==>
      var r := start.reservationID;
      && (r in s'.core.reservations && r in s.core.reservations ==>
            && s'.core.reservations[r] == s.core.reservations[r]
            && (r in s.serials ==> r in s'.serials && s'.serials[r] == s.serials[r]))
      && (r in s'.core.reservations ==> r in s.core.reservations)
      && (start.hold.value.reservation.connectorID != 0 && r in s.core.reservations ==> r in s'.core.reservations))
  }

  lemma KeptHolds(s: State, s': State)
    requires Held(s)
    requires forall t :: t in s'.starts ==>
      t in s.starts && SameStart(s.starts[t], s'.starts[t]) && KeepsHold(s, s', s.starts[t])
    ensures Held(s')
  {
    forall t | t in s'.starts
      ensures HoldAgrees(s', t)
    {
      assert HoldAgrees(s, t);
    }
  }

  lemma BeginHolds(s: State, t: nat, tag: string, c: int, r: int, now: int, s': State)
    requires Held(s) && SerialsAgree(s) && c != 0
    requires MayGrant(s.core.reservations, now, c, tag, r) && StartBegunStep(s, t, tag, c, r, now, s')
    ensures Held(s')
  {
    forall u | u in s'.starts
      ensures HoldAgrees(s', u)
    {
      if u != t {
        assert HoldAgrees(s, u);
      } else if r > 0 {
        assert Counts(s.core.reservations, r, now, c);
        assert Matches(s.core.reservations[r], tag);
      }
    }
  }

  lemma AcceptHolds(s: State, t: nat, id: int, now: int, s': State)
    requires Held(s) && ThreadsApart(s) && StartAcceptedStep(s, t, id, now, s')
    ensures Held(s')
  {
    assert HoldAgrees(s, t);
    forall u | u in s'.starts
      ensures u in s.starts && SameStart(s.starts[u], s'.starts[u]) && KeepsHold(s, s', s.starts[u])
    {
      assert HoldAgrees(s, u);
    }
    KeptHolds(s, s');
  }

  lemma FailureHolds(s: State, t: nat, now: int)
    requires Held(s) && StartAt(s, t)
    ensures Held(FailedStart(s, t, now))
  {
    KeptHolds(s, FailedStart(s, t, now));
  }

  lemma StartMovesHold(s: State, t: nat, now: int, s': State)
    requires Held(s)
    requires StartConfigurationStep(s, t, now, s') || AuthorizeStep(s, t, true, now, s') || StartMeterStep(s, t, now, s')
    ensures Held(s')
  {
    KeptHolds(s, s');
  }

  lemma StartHeld(s: State, e: Event, s': State)
    requires Held(s) && ThreadsApart(s) && SerialsAgree(s) && 0 !in s.core.connectors && StartNext(s, e, s')
    ensures Held(s')
  {
    match e.action
    case RemoteStart(t, requested, tag, choice) =>
      if choice.Chosen? {
        ChosenIsAcceptedByName(s.core, e.now, requested, tag, choice.connectorID, choice.reservationID);
        BeginHolds(s, t, tag, choice.connectorID, choice.reservationID, e.now, s');
      } else {
        KeptHolds(s, s');
      }
    case StartReadsConfiguration(t) => StartMovesHold(s, t, e.now, s');
    case StartReadsMeter(t) => StartMovesHold(s, t, e.now, s');
    case AuthorizeAnswered(t, accepted) =>
      if accepted {
        StartMovesHold(s, t, e.now, s');
      } else {
        FailureHolds(s, t, e.now);
      }
    case StartAnswered(t, answer) =>
      if answer.StartAccepted? {
        AcceptHolds(s, t, answer.transactionID, e.now, s');
      } else {
        FailureHolds(s, t, e.now);
      }
  }

  lemma StopHeld(s: State, e: Event, s': State)
    requires Held(s) && StopNext(s, e, s')
    ensures Held(s')
  {
    assert s'.starts == s.starts && s'.core.reservations == s.core.reservations && s'.serials == s.serials;
    KeptHolds(s, s');
  }

  lemma ReleaseHolds(s: State, r: int, now: int)
    requires Held(s) && StoreShape(s.core) && !BoundToBusy(s, r)
    ensures Held(WithCore(s, Released(s.core, r, now)).(now := now))
  {
    var s' := WithCore(s, Released(s.core, r, now)).(now := now);
    forall t | t in s'.starts
      ensures KeepsHold(s, s', s.starts[t])
    {
      assert HoldAgrees(s, t) && Starting(s, s.starts[t].connectorID);
    }
    KeptHolds(s, s');
  }

  /** A refused reuse drops at most a connector-zero reservation; an accepted
      one is for an identifier nobody holds. */
  lemma ReserveHolds(s: State, request: ReserveRequest, checkedAt: int, verdict: ReserveAnswer, now: int, s': State)
    requires Held(s) && ReserveStep(s, request, checkedAt, verdict, now, s')
    requires FutureExpiry(request, checkedAt) ==> !BoundToBusy(s, request.reservationId)
    requires Obeys(NoReuseWhileHeld, s, ReserveNow(request, checkedAt, verdict))
    ensures Held(s')
  {
    if FutureExpiry(request, checkedAt) {
      ReleaseHolds(s, request.reservationId, now);
      if verdict == ReserveAccepted {
        KeptHolds(WithCore(s, Released(s.core, request.reservationId, now)).(now := now), s');
      }
    } else {
      KeptHolds(s, s');
    }
  }

  lemma SweepHolds(s: State, at: int, now: int, s': State)
    requires Held(s) && SweepStep(s, at, now, s')
    requires forall r :: r in Expired(s.core, at) ==> !BoundToBusy(s, r)
    ensures Held(s')
  {
    forall t | t in s'.starts
      ensures KeepsHold(s, s', s.starts[t])
    {
      assert HoldAgrees(s, t) && Starting(s, s.starts[t].connectorID);
    }
    KeptHolds(s, s');
  }

  lemma ReservationHeld(s: State, e: Event, s': State)
    requires Held(s) && ReservationNext(s, e, s')
    requires Obeys(NoRemovalWhileBusy, s, e.action) && Obeys(NoReuseWhileHeld, s, e.action)
    ensures Held(s')
  {
    match e.action
    case ReserveNow(request, checkedAt, verdict) => ReserveHolds(s, request, checkedAt, verdict, e.now, s');
    case CancelReservation(id) => ReleaseHolds(s, id, e.now);
    case Sweep(at) => SweepHolds(s, at, e.now, s');
  }

  lemma AvailabilityHolds(s: State, id: int, kind: Availability, now: int, s': State)
    requires Held(s) && AvailabilityStep(s, id, kind, now, s')
    requires forall t :: t in s.starts ==> s.starts[t].connectorID !in Covered(s.core, id)
    ensures Held(s')
  {
    forall t | t in s'.starts
      ensures KeepsHold(s, s', s.starts[t])
    {
      assert HoldAgrees(s, t);
    }
    KeptHolds(s, s');
  }

  lemma StationHeld(opts: Options, s: State, e: Event, s': State)
    requires Held(s) && StationNext(opts, s, e, s') && Obeys(NoAvailabilityDuringStart, s, e.action)
    ensures Held(s')
  {
    if e.action.ChangeAvailabilityOf? {
      AvailabilityHolds(s, e.action.connectorId, e.action.kind, e.now, s');
    } else {
      KeptHolds(s, s');
    }
  }

  lemma StepHeld(opts: Options, s: State, e: Event, s': State)
    requires Always(opts, s) && Held(s) && ThreadsApart(s) && Next(opts, s, e, s')
    requires Disciplined(s, e.action)
    ensures Held(s')
  {
    assert Obeys(NoAvailabilityDuringStart, s, e.action);
    assert Obeys(NoRemovalWhileBusy, s, e.action) && Obeys(NoReuseWhileHeld, s, e.action);
    if StartNext(s, e, s') {
      StartHeld(s, e, s');
    } else if ReservationNext(s, e, s') {
      ReservationHeld(s, e, s');
    } else if StationNext(opts, s, e, s') {
      StationHeld(opts, s, e, s');
    } else {
      StopHeld(s, e, s');
    }
  }

  // ---------------------------------------------------------------------
  // Tags
  // ---------------------------------------------------------------------

  /** Open transactions keep their tag, and no stop is sent. */
  ghost predicate KeepsTags(s: State, s': State) {
    && s'.core.connectors.Keys == s.core.connectors.Keys
    && s'.confirmed == s.confirmed
    && (forall c :: c in s.core.connectors && s'.core.connectors[c].transactionID > 0 ==>
          && s'.core.connectors[c].transactionID == s.core.connectors[c].transactionID
          && s'.core.connectors[c].idTag == s.core.connectors[c].idTag)
    && (forall t :: t in s'.stops && s'.stops[t].pc.StopSent? ==> t in s.stops && s'.stops[t] == s.stops[t])
  }

  lemma KeptTags(s: State, s': State)
    requires Tagged(s) && KeepsTags(s, s')
    ensures Tagged(s')
  {}

  lemma FailureKeepsTags(s: State, t: nat, now: int)
    requires Tagged(s) && Connected(s) && StartAt(s, t)
    ensures Tagged(FailedStart(s, t, now))
  {
    assert StartAgrees(s, t) && ConnectorAgrees(s, s.starts[t].connectorID);
    KeptTags(s, FailedStart(s, t, now));
  }

  lemma AcceptTags(s: State, t: nat, id: int, now: int, s': State)
    requires Tagged(s) && Connected(s) && StartAcceptedStep(s, t, id, now, s')
    ensures Tagged(s')
  {
    assert StartAgrees(s, t);
  }

  lemma BeginTags(s: State, t: nat, tag: string, c: int, r: int, now: int, s': State)
    requires Tagged(s) && Eligible(s.core, c) && StartBegunStep(s, t, tag, c, r, now, s')
    ensures Tagged(s')
  {
    KeptTags(s, s');
  }

  lemma StartTagged(s: State, e: Event, s': State)
    requires Tagged(s) && Connected(s) && StartNext(s, e, s')
    ensures Tagged(s')
  {
    match e.action
    case RemoteStart(t, requested, tag, choice) =>
      if choice.Chosen? {
        ChosenIsAcceptedByName(s.core, e.now, requested, tag, choice.connectorID, choice.reservationID);
        BeginTags(s, t, tag, choice.connectorID, choice.reservationID, e.now, s');
      }
    case AuthorizeAnswered(t, accepted) =>
      if !accepted {
        FailureKeepsTags(s, t, e.now);
      }
    case StartAnswered(t, answer) =>
      if answer.StartAccepted? {
        AcceptTags(s, t, answer.transactionID, e.now, s');
      } else {
        FailureKeepsTags(s, t, e.now);
      }
    case _ => KeptTags(s, s');
  }

  lemma StopReadTags(s: State, t: nat, now: int, s': State)
    requires Tagged(s) && Connected(s) && StopMeterStep(s, t, now, s')
    ensures Tagged(s')
  {
    assert StopAgrees(s, t) && ConnectorAgrees(s, s.stops[t].connectorID);
  }

  lemma StopBeginKeepsTags(s: State, t: nat, id: int, c: int, now: int, s': State)
    requires Tagged(s) && StopBegunStep(s, t, id, c, now, s')
    ensures Tagged(s')
  {
    KeptTags(s, s');
  }

  lemma StopAnswerKeepsTags(s: State, t: nat, confirmed: bool, now: int, s': State)
    requires Tagged(s) && StopAnswerStep(s, t, confirmed, now, s')
    ensures Tagged(s')
  {
    KeptTags(s, s');
  }

  lemma StopTagged(s: State, e: Event, s': State)
    requires Tagged(s) && Connected(s) && StopNext(s, e, s')
    ensures Tagged(s')
  {
    match e.action
    case StopReadsMeter(t) => StopReadTags(s, t, e.now, s');
    case RemoteStop(t, id, found) =>
      if found.Some? {
        StopBeginKeepsTags(s, t, id, found.value, e.now, s');
      }
    case StopAnswered(t, confirmed) => StopAnswerKeepsTags(s, t, confirmed, e.now, s');
  }

  lemma ReleasedKeepsTags(s: State, r: int, now: int)
    requires Tagged(s) && StoreShape(s.core)
    ensures Tagged(WithCore(s, Released(s.core, r, now)).(now := now))
  {
    KeptTags(s, WithCore(s, Released(s.core, r, now)).(now := now));
  }

  lemma ReserveKeepsTags(s: State, request: ReserveRequest, checkedAt: int, verdict: ReserveAnswer, now: int, s': State)
    requires Tagged(s) && ReserveStep(s, request, checkedAt, verdict, now, s')
    ensures Tagged(s')
  {
    if FutureExpiry(request, checkedAt) {
      ReleasedKeepsTags(s, request.reservationId, now);
      KeptTags(WithCore(s, Released(s.core, request.reservationId, now)).(now := now), s');
    }
  }

  lemma ReservationTagged(s: State, e: Event, s': State)
    requires Tagged(s) && ReservationNext(s, e, s')
    ensures Tagged(s')
  {
    match e.action
    case ReserveNow(request, checkedAt, verdict) => ReserveKeepsTags(s, request, checkedAt, verdict, e.now, s');
    case CancelReservation(id) => ReleasedKeepsTags(s, id, e.now);
    case Sweep(_) => KeptTags(s, s');
  }

  lemma StationTagged(opts: Options, s: State, e: Event, s': State)
    requires Tagged(s) && StationNext(opts, s, e, s')
    ensures Tagged(s')
  {
    KeptTags(s, s');
  }

  // ---------------------------------------------------------------------
  // Backing
  // ---------------------------------------------------------------------

  /** Stored reservations keep their serial or get a new one. */
  ghost predicate KeepsBacking(s: State, s': State) {
    && s'.backings == s.backings && s'.confirmed == s.confirmed && s.nextSerial <= s'.nextSerial
    && (forall r :: r in s'.serials ==> s'.serials[r] == s.nextSerial || (r in s.serials && s'.serials[r] == s.serials[r]))
  }

  lemma KeptBacking(s: State, s': State)
    requires Backed(s) && KeepsBacking(s, s')
    ensures Backed(s')
  {
    assert forall i :: 0 <= i < |s.backings| ==> BackingAgrees(s, s.backings[i]);
  }

  lemma AcceptBacks(s: State, t: nat, id: int, now: int, s': State)
    requires Backed(s) && Held(s) && SerialsAgree(s) && StartAcceptedStep(s, t, id, now, s')
    ensures Backed(s')
  {
    assert HoldAgrees(s, t);
    forall i | 0 <= i < |s'.backings|
      ensures BackingAgrees(s', s'.backings[i]) && s'.backings[i].hold.serial < s'.nextSerial
    {
      if i < |s.backings| {
        assert BackingAgrees(s, s.backings[i]) && s'.backings[i] == s.backings[i];
      }
    }
    forall i, j |
      && 0 <= i < j < |s'.backings|
      && s'.backings[i].hold.reservation.connectorID != 0 && s'.backings[j].hold.reservation.connectorID != 0
      ensures s'.backings[i].hold.serial != s'.backings[j].hold.serial
    {
      assert BackingAgrees(s, s.backings[i]) && s'.backings[i] == s.backings[i];
    }
  }

  lemma StationKeepsBacking(opts: Options, s: State, e: Event, s': State)
    requires Backed(s) && StationNext(opts, s, e, s')
    ensures Backed(s')
  {
    assert KeepsBacking(s, s');
    KeptBacking(s, s');
  }

  lemma ReserveKeepsBacking(s: State, request: ReserveRequest, checkedAt: int, verdict: ReserveAnswer, now: int, s': State)
    requires Backed(s) && ReserveStep(s, request, checkedAt, verdict, now, s')
    ensures Backed(s')
  {
    KeptBacking(s, s');
  }

  lemma ReservationBacked(s: State, e: Event, s': State)
    requires Backed(s) && ReservationNext(s, e, s')
    ensures Backed(s')
  {
    if e.action.ReserveNow? {
      ReserveKeepsBacking(s, e.action.request, e.action.checkedAt, e.action.verdict, e.now, s');
    } else {
      KeptBacking(s, s');
    }
  }

  lemma StartBacked(s: State, e: Event, s': State)
    requires Backed(s) && Held(s) && SerialsAgree(s) && StartNext(s, e, s')
    ensures Backed(s')
  {
    if e.action.StartAnswered? && e.action.answer.StartAccepted? {
      AcceptBacks(s, e.action.thread, e.action.answer.transactionID, e.now, s');
    } else {
      assert s'.backings == s.backings && s'.confirmed == s.confirmed
        && s'.serials == s.serials && s'.nextSerial == s.nextSerial;
      KeptBacking(s, s');
    }
  }

  lemma StopBacked(s: State, e: Event, s': State)
    requires Backed(s) && StopNext(s, e, s')
    ensures Backed(s')
  {
    assert s'.backings == s.backings && s'.confirmed == s.confirmed
      && s'.serials == s.serials && s'.nextSerial == s.nextSerial;
    KeptBacking(s, s');
  }

  // ---------------------------------------------------------------------
  // Conservation
  // ---------------------------------------------------------------------

  ghost predicate SameCount(s: State, s': State) {
    && s'.acceptedStarts == s.acceptedStarts && s'.confirmedStops == s.confirmedStops
    && s'.clearedByReset == s.clearedByReset
    && s'.core.connectors.Keys == s.core.connectors.Keys
    && (forall c :: c in s.core.connectors ==>
          (s'.core.connectors[c].transactionID > 0 <==> s.core.connectors[c].transactionID > 0))
  }

  lemma SameCountConserves(s: State, s': State)
    requires Conserved(s) && SameCount(s, s')
    ensures Conserved(s')
  {
    var before, after := OpenConnectors(s.core), OpenConnectors(s'.core);
    assert forall c :: c in after <==> c in before;
    assert after == before;
  }

  lemma AcceptConserves(s: State, t: nat, id: int, now: int, s': State)
    requires Conserved(s) && Connected(s) && StartAcceptedStep(s, t, id, now, s')
    ensures Conserved(s')
  {
    var c := s.starts[t].connectorID;
    assert StartAgrees(s, t) && ConnectorAgrees(s, c);
    assert OpenConnectors(s'.core) == OpenConnectors(s.core) + {c};
  }

  lemma StopConserves(s: State, t: nat, confirmed: bool, now: int, s': State)
    requires Conserved(s) && Connected(s) && StopAnswerStep(s, t, confirmed, now, s')
    ensures Conserved(s')
  {
    if confirmed {
      var c := s.stops[t].connectorID;
      assert StopAgrees(s, t) && ConnectorAgrees(s, c);
      assert c in OpenConnectors(s.core);
      assert OpenConnectors(s'.core) == OpenConnectors(s.core) - {c};
    }
  }

  lemma ResetConserves(s: State, now: int, s': State)
    requires Conserved(s) && ResetStep(s, now, s')
    ensures Conserved(s')
  {
    assert OpenConnectors(s'.core) == {};
  }

  lemma FailureConserves(s: State, t: nat, now: int)
    requires Conserved(s) && StartAt(s, t)
    ensures Conserved(FailedStart(s, t, now))
  {
    SameCountConserves(s, FailedStart(s, t, now));
  }

  lemma StartConserved(s: State, e: Event, s': State)
    requires Conserved(s) && Connected(s) && StartNext(s, e, s')
    ensures Conserved(s')
  {
    match e.action
    case AuthorizeAnswered(t, accepted) =>
      if !accepted {
        FailureConserves(s, t, e.now);
      }
    case StartAnswered(t, answer) =>
      if answer.StartAccepted? {
        AcceptConserves(s, t, answer.transactionID, e.now, s');
      } else {
        FailureConserves(s, t, e.now);
      }
    case _ => SameCountConserves(s, s');
  }

  lemma StopBeginConserves(s: State, t: nat, id: int, found: Option<int>, now: int, s': State)
    requires Conserved(s) && RemoteStopStep(s, t, id, found, now, s')
    ensures Conserved(s')
  {
    SameCountConserves(s, s');
  }

  lemma StopConserved(s: State, e: Event, s': State)
    requires Conserved(s) && Connected(s) && StopNext(s, e, s')
    ensures Conserved(s')
  {
    if e.action.StopAnswered? {
      StopConserves(s, e.action.thread, e.action.confirmed, e.now, s');
    } else if e.action.RemoteStop? {
      StopBeginConserves(s, e.action.thread, e.action.transactionId, e.action.found, e.now, s');
    } else {
      SameCountConserves(s, s');
    }
  }

  lemma ReserveConserves(s: State, request: ReserveRequest, checkedAt: int, verdict: ReserveAnswer, now: int, s': State)
    requires Conserved(s) && ReserveStep(s, request, checkedAt, verdict, now, s')
    ensures Conserved(s')
  {
    SameCountConserves(s, s');
  }

  lemma ReservationConserved(s: State, e: Event, s': State)
    requires Conserved(s) && ReservationNext(s, e, s')
    ensures Conserved(s')
  {
    if e.action.ReserveNow? {
      ReserveConserves(s, e.action.request, e.action.checkedAt, e.action.verdict, e.now, s');
    } else {
      SameCountConserves(s, s');
    }
  }

  lemma StationConserved(opts: Options, s: State, e: Event, s': State)
    requires Conserved(s) && StationNext(opts, s, e, s')
    ensures Conserved(s')
  {
    if e.action.Reset? {
      ResetConserves(s, e.now, s');
    } else {
      SameCountConserves(s, s');
    }
  }

  // ---------------------------------------------------------------------
  // The whole agreement
  // ---------------------------------------------------------------------

  lemma InitialAgreement(opts: Options, start: int)
    ensures Agreement(Init(opts, start))
  {
    var s := Init(opts, start);
    forall c | c in s.core.connectors
      ensures ConnectorAgrees(s, c)
    {
      assert CachedIdle(s.core, c, s.now);
    }
    assert OpenConnectors(s.core) == {};
  }

  lemma StopKeepsAgreement(opts: Options, s: State, e: Event, s': State)
    requires Agreement(s) && s.now <= e.now && StopNext(s, e, s')
    requires Obeys(NoSecondStop, s, e.action) && Obeys(NoStopOfZero, s, e.action)
    ensures Connected(s') && Tagged(s') && Backed(s') && Conserved(s')
  {
    StopConnected(s, e, s');
    StopTagged(s, e, s');
    StopBacked(s, e, s');
    StopConserved(s, e, s');
  }

  lemma ReservationKeepsAgreement(opts: Options, s: State, e: Event, s': State)
    requires Always(opts, s) && Agreement(s) && s.now <= e.now && ReservationNext(s, e, s')
    requires Obeys(NoRemovalWhileBusy, s, e.action)
    ensures Connected(s') && Tagged(s') && Backed(s') && Conserved(s')
  {
    ReservationConnected(opts.connectors, s, e, s');
    ReservationTagged(s, e, s');
    ReservationBacked(s, e, s');
    ReservationConserved(s, e, s');
  }

  lemma StationKeepsAgreement(opts: Options, s: State, e: Event, s': State)
    requires Agreement(s) && s.now <= e.now && StationNext(opts, s, e, s')
    requires Obeys(NoAvailabilityDuringStart, s, e.action) && Obeys(NoResetInFlight, s, e.action)
    ensures Connected(s') && Tagged(s') && Backed(s') && Conserved(s')
  {
    StationConnected(opts, s, e, s');
    StationTagged(opts, s, e, s');
    StationKeepsBacking(opts, s, e, s');
    StationConserved(opts, s, e, s');
  }

  lemma StepKeepsAgreement(opts: Options, s: State, e: Event, s': State)
    requires Always(opts, s) && Agreement(s) && Next(opts, s, e, s') && Disciplined(s, e.action)
    ensures Agreement(s')
  {
    StepHeld(opts, s, e, s');
    assert Obeys(NoAvailabilityDuringStart, s, e.action) && Obeys(NoResetInFlight, s, e.action);
    assert Obeys(NoRemovalWhileBusy, s, e.action);
    assert Obeys(NoSecondStop, s, e.action) && Obeys(NoStopOfZero, s, e.action);
    if StartNext(s, e, s') {
      StartConnected(opts.connectors, s, e, s');
      StartTagged(s, e, s');
      StartBacked(s, e, s');
      StartConserved(s, e, s');
    } else if StopNext(s, e, s') {
      StopKeepsAgreement(opts, s, e, s');
    } else if ReservationNext(s, e, s') {
      ReservationKeepsAgreement(opts, s, e, s');
    } else {
      StationKeepsAgreement(opts, s, e, s');
    }
  }

  /** Every state of every disciplined run is in agreement. */
  lemma {:induction false} AgreementInRun(run: Run, i: nat)
    requires DisciplinedRun(run) && i < |run.states|
    ensures Agreement(run.states[i])
  {
    if i == 0 {
      InitialAgreement(run.opts, run.states[0].now);
    } else {
      AgreementInRun(run, i - 1);
      AlwaysInRun(run, i - 1);
      assert DisciplinedAt(run, i - 1);
      assert StepAt(run, i - 1);
      StepKeepsAgreement(run.opts, run.states[i - 1], run.events[i - 1], run.states[i]);
    }
  }
}
