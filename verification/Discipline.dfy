/** The code overwrites a connector's status without looking at it in several
    sections.  `Agreement` is what holds while that does no harm, and
    `Disciplined` says which sections do none: most rules bind the central
    system, one also the station's own sweep. */
module Discipline {
  import opened Station
  import opened Access
  import opened Shapes
  import opened Protocol
  import opened EveryRun

  // ---------------------------------------------------------------------
  // The discipline
  // ---------------------------------------------------------------------

  datatype Rule =
    | NoAvailabilityDuringStart
    | NoResetInFlight
    | NoRemovalWhileBusy
    | NoReuseWhileHeld
    | NoSecondStop
    | NoStopOfZero

  ghost predicate Starting(s: State, c: int) {
    exists t :: t in s.starts && s.starts[t].connectorID == c
  }

  /** A start is in flight or a transaction is open. */
  ghost predicate Busy(s: State, c: int) {
    Starting(s, c) || (c in s.core.connectors && s.core.connectors[c].transactionID > 0)
  }

  ghost predicate BoundToBusy(s: State, r: int) {
    r in s.core.reservations && s.core.reservations[r].connectorID != 0 && Busy(s, s.core.reservations[r].connectorID)
  }

  ghost predicate Obeys(rule: Rule, s: State, action: Action) {
    match rule
    case NoAvailabilityDuringStart =>
      action.ChangeAvailabilityOf? ==>
        forall t :: t in s.starts ==> s.starts[t].connectorID !in Covered(s.core, action.connectorId)
    case NoResetInFlight =>
      action.Reset? ==> s.starts == map[] && s.stops == map[]
    case NoRemovalWhileBusy =>
      && (action.CancelReservation? ==> !BoundToBusy(s, action.reservationId))
      && (action.ReserveNow? && FutureExpiry(action.request, action.checkedAt) ==>
            !BoundToBusy(s, action.request.reservationId))
      && (action.Sweep? ==> forall r :: r in Expired(s.core, action.at) ==> !BoundToBusy(s, r))
    case NoReuseWhileHeld =>
      action.ReserveNow? && action.verdict == ReserveAccepted ==>
        forall t :: t in s.starts && s.starts[t].hold.Some? ==>
          s.starts[t].reservationID != action.request.reservationId
    case NoSecondStop =>
      action.RemoteStop? ==> forall t :: t in s.stops ==> s.stops[t].transactionID != action.transactionId
    case NoStopOfZero =>
      action.RemoteStop? && action.transactionId == 0 ==>
        forall c :: c in s.core.connectors ==> s.core.connectors[c].transactionID != 0
  }

  ghost predicate Disciplined(s: State, action: Action) {
    forall rule :: Obeys(rule, s, action)
  }

  ghost predicate DisciplinedAt(run: Run, i: int)
    requires 0 <= i < |run.events| <= |run.states|
  {
    Disciplined(run.states[i], run.events[i].action)
  }

  ghost predicate DisciplinedRun(run: Run) {
    && IsRun(run)
    && forall i :: 0 <= i < |run.events| ==> DisciplinedAt(run, i)
  }

  // ---------------------------------------------------------------------
  // Agreement
  // ---------------------------------------------------------------------

  /** The status an idle connector shows.  Between the expiry of a reservation
      and the sweep that removes it, either of the last two is right. */
  ghost predicate CachedIdle(core: Core, c: int, now: int)
    requires c in core.connectors
  {
    var connector := core.connectors[c];
    if connector.availability == Inoperative then connector.status == Unavailable
    else
      && (connector.status == Available || connector.status == Reserved)
      && (LiveBound(core.reservations, c, now) ==> connector.status == Reserved)
      && (Unbound(core.reservations, c) ==> connector.status == Available)
  }

  ghost predicate ConnectorAgrees(s: State, c: int)
    requires c in s.core.connectors
  {
    var connector := s.core.connectors[c];
    match connector.status
    case Preparing => connector.transactionID == 0 && Starting(s, c)
    case Charging => connector.transactionID > 0
    case Finishing => connector.transactionID > 0
    case Faulted => false
    case _ => connector.transactionID == 0 && connector.idTag == "" && CachedIdle(s.core, c, s.now)
  }

  ghost predicate StartAgrees(s: State, t: nat)
    requires t in s.starts
  {
    && StartAt(s, t)
    && var connector := s.core.connectors[s.starts[t].connectorID];
       && connector.status == Preparing
       && connector.availability == Operative
       && connector.idTag == s.starts[t].idTag
  }

  ghost predicate StopAgrees(s: State, t: nat)
    requires t in s.stops
  {
    && StopAt(s, t)
    && s.core.connectors[s.stops[t].connectorID].status == Finishing
    && s.core.connectors[s.stops[t].connectorID].transactionID == s.stops[t].transactionID
  }

  /** One start, or one stop, per connector. */
  ghost predicate ThreadsApart(s: State) {
    && (forall t, u :: t in s.starts && u in s.starts && t != u ==> s.starts[t].connectorID != s.starts[u].connectorID)
    && (forall t, u :: t in s.stops && u in s.stops && t != u ==> s.stops[t].connectorID != s.stops[u].connectorID)
  }

  ghost predicate Connected(s: State) {
    && ThreadsApart(s)
    && (forall t :: t in s.starts ==> StartAgrees(s, t))
    && (forall t :: t in s.stops ==> StopAgrees(s, t))
    && (forall c :: c in s.core.connectors ==> ConnectorAgrees(s, c))
  }

  /** The reservation a start holds is still the stored one, and is stored if
      it is bound to the connector. */
  ghost predicate HoldAgrees(s: State, t: nat)
    requires t in s.starts
  {
    var start := s.starts[t];
    match start.hold
    case None => start.reservationID <= 0
    case Some(hold) =>
      && Matches(hold.reservation, start.idTag)
      && Covers(hold.reservation, start.connectorID)
      && start.connectorID != 0
      && start.reservationID > 0
      && hold.serial < s.nextSerial
      && (start.reservationID in s.core.reservations ==>
            && s.core.reservations[start.reservationID] == hold.reservation
            && start.reservationID in s.serials && s.serials[start.reservationID] == hold.serial)
      && (hold.reservation.connectorID != 0 ==> start.reservationID in s.core.reservations)
  }

  ghost predicate Held(s: State) {
    forall t :: t in s.starts ==> HoldAgrees(s, t)
  }

  /** Tags of open transactions and of sent stops are the starting tags. */
  ghost predicate Tagged(s: State) {
    && (forall c :: c in s.core.connectors && s.core.connectors[c].transactionID > 0 ==>
          && s.core.connectors[c].transactionID in s.confirmed
          && s.confirmed[s.core.connectors[c].transactionID].idTag == s.core.connectors[c].idTag)
    && (forall t :: t in s.stops && s.stops[t].pc.StopSent? ==>
          && s.stops[t].transactionID in s.confirmed
          && s.confirmed[s.stops[t].transactionID].idTag == s.stops[t].pc.idTag)
  }

  ghost predicate BackingAgrees(s: State, b: Backing) {
    && b.transactionID in s.confirmed
    && Matches(b.hold.reservation, s.confirmed[b.transactionID].idTag)
    && Covers(b.hold.reservation, s.confirmed[b.transactionID].connectorID)
    && (b.hold.reservation.connectorID != 0 ==> forall r :: r in s.serials ==> s.serials[r] != b.hold.serial)
  }

  /** A reservation bound to a connector backed at most one transaction. */
  ghost predicate Backed(s: State) {
    && (forall i :: 0 <= i < |s.backings| ==> BackingAgrees(s, s.backings[i]) && s.backings[i].hold.serial < s.nextSerial)
    && (forall i, j ::
          && 0 <= i < j < |s.backings|
          && s.backings[i].hold.reservation.connectorID != 0 && s.backings[j].hold.reservation.connectorID != 0
          ==> s.backings[i].hold.serial != s.backings[j].hold.serial)
  }

  ghost predicate Conserved(s: State) {
    s.acceptedStarts - s.confirmedStops - s.clearedByReset == |OpenConnectors(s.core)|
  }

  ghost predicate Agreement(s: State) {
    Connected(s) && Held(s) && Tagged(s) && Backed(s) && Conserved(s)
  }

  // ---------------------------------------------------------------------
  // Frames
  // ---------------------------------------------------------------------

  lemma IdleStatusIsCached(core: Core, c: int, now: int)
    requires c in core.connectors && core.connectors[c].status == IdleStatus(core, c, now)
    ensures CachedIdle(core, c, now)
    ensures IsIdle(core.connectors[c].status)
  {}

  /** Reservations bound to `c` are the same ones. */
  ghost predicate SameBound(rs: map<int, Reservation>, rs': map<int, Reservation>, c: int) {
    && (forall r :: r in rs && rs[r].connectorID == c ==> r in rs' && rs'[r] == rs[r])
    && (forall r :: r in rs' && rs'[r].connectorID == c ==> r in rs && rs'[r] == rs[r])
  }

  /** Nothing `ConnectorAgrees` looks at changed, except the time. */
  ghost predicate Untouched(s: State, s': State, c: int) {
    && c in s.core.connectors && c in s'.core.connectors
    && s'.core.connectors[c] == s.core.connectors[c].(meter := s'.core.connectors[c].meter)
    && (Starting(s, c) ==> Starting(s', c))
    && SameBound(s.core.reservations, s'.core.reservations, c)
    && s.now <= s'.now
  }

  lemma UntouchedAgrees(s: State, s': State, c: int)
    requires Untouched(s, s', c) && ConnectorAgrees(s, c)
    ensures ConnectorAgrees(s', c)
  {
    assert LiveBound(s'.core.reservations, c, s'.now) ==> LiveBound(s.core.reservations, c, s.now);
    assert Unbound(s'.core.reservations, c) ==> Unbound(s.core.reservations, c);
  }

  /** A step that leaves every connector but `c0`, its threads and its
      reservations alone. */
  ghost predicate OnlyTouches(s: State, s': State, c0: int) {
    && s.now <= s'.now
    && s'.core.connectors.Keys == s.core.connectors.Keys
    && (forall c :: c in s.core.connectors && c != c0 ==>
          s'.core.connectors[c] == s.core.connectors[c] && SameBound(s.core.reservations, s'.core.reservations, c))
    && (forall t :: t in s.starts && s.starts[t].connectorID != c0 ==> t in s'.starts && s'.starts[t] == s.starts[t])
    && (forall t :: t in s'.starts && s'.starts[t].connectorID != c0 ==> t in s.starts && s'.starts[t] == s.starts[t])
    && (forall t :: t in s'.stops && s'.stops[t].connectorID != c0 ==> t in s.stops && s'.stops[t] == s.stops[t])
  }

  ghost predicate LocallyConnected(s: State, c0: int) {
    && (c0 in s.core.connectors ==> ConnectorAgrees(s, c0))
    && (forall t :: t in s.starts && s.starts[t].connectorID == c0 ==> StartAgrees(s, t))
    && (forall t :: t in s.stops && s.stops[t].connectorID == c0 ==> StopAgrees(s, t))
    && (forall t, u ::
          t in s.starts && u in s.starts && s.starts[t].connectorID == s.starts[u].connectorID == c0 ==> t == u)
    && (forall t, u ::
          t in s.stops && u in s.stops && s.stops[t].connectorID == s.stops[u].connectorID == c0 ==> t == u)
  }

  lemma TouchOne(s: State, s': State, c0: int)
    requires Connected(s) && OnlyTouches(s, s', c0) && LocallyConnected(s', c0)
    ensures Connected(s')
  {
    forall c | c in s'.core.connectors
      ensures ConnectorAgrees(s', c)
    {
      if c != c0 {
        if Starting(s, c) {
          var t :| t in s.starts && s.starts[t].connectorID == c;
          assert t in s'.starts && s'.starts[t].connectorID == c;
        }
        UntouchedAgrees(s, s', c);
      }
    }
    forall t | t in s'.starts
      ensures StartAgrees(s', t)
    {
      if s'.starts[t].connectorID != c0 {
        assert StartAgrees(s, t);
      }
    }
    forall t | t in s'.stops
      ensures StopAgrees(s', t)
    {
      if s'.stops[t].connectorID != c0 {
        assert StopAgrees(s, t);
      }
    }
  }

  // ---------------------------------------------------------------------
  // Connected, step by step
  // ---------------------------------------------------------------------

  lemma BeginKeepsConnected(s: State, t: nat, tag: string, c: int, r: int, now: int, s': State)
    requires Connected(s) && s.now <= now && StartBegunStep(s, t, tag, c, r, now, s')
    requires Eligible(s.core, c) && AwaitingUse(s.core, c)
    ensures Connected(s')
  {
    assert Starting(s', c) by { assert s'.starts[t].connectorID == c; }
    assert forall u :: u in s.starts ==> StartAgrees(s, u) && s.starts[u].connectorID != c;
    TouchOne(s, s', c);
  }

  /** Same connectors and reservations, same thread identities. */
  ghost predicate OnlyMoves(s: State, s': State) {
    && s.now <= s'.now
    && s'.core.connectors == s.core.connectors && s'.core.reservations == s.core.reservations
    && s'.starts.Keys == s.starts.Keys && s'.stops.Keys <= s.stops.Keys
    && (forall t :: t in s.starts ==>
          s'.starts[t].connectorID == s.starts[t].connectorID && s'.starts[t].idTag == s.starts[t].idTag)
    && (forall t :: t in s'.stops ==>
          s'.stops[t].connectorID == s.stops[t].connectorID && s'.stops[t].transactionID == s.stops[t].transactionID)
  }

  lemma MovesKeepConnected(s: State, s': State)
    requires Connected(s) && OnlyMoves(s, s')
    ensures Connected(s')
  {
    forall c | c in s'.core.connectors
      ensures ConnectorAgrees(s', c)
    {
      if Starting(s, c) {
        var t :| t in s.starts && s.starts[t].connectorID == c;
        assert t in s'.starts && s'.starts[t].connectorID == c;
      }
      UntouchedAgrees(s, s', c);
    }
    forall t | t in s'.starts
      ensures StartAgrees(s', t)
    {
      assert StartAgrees(s, t);
    }
    forall t | t in s'.stops
      ensures StopAgrees(s', t)
    {
      assert StopAgrees(s, t);
    }
  }

  lemma FailureKeepsConnected(s: State, t: nat, now: int)
    requires Connected(s) && s.now <= now && StartAt(s, t)
    ensures Connected(FailedStart(s, t, now))
  {
    var s' := FailedStart(s, t, now);
    var c := s.starts[t].connectorID;
    assert StartAgrees(s, t);
    IdleStatusIsCached(s'.core, c, now);
    TouchOne(s, s', c);
  }

  lemma AcceptTouchesOne(s: State, t: nat, id: int, now: int, s': State)
    requires Held(s) && s.now <= now && StartAcceptedStep(s, t, id, now, s')
    requires 0 !in s.core.connectors
    ensures OnlyTouches(s, s', s.starts[t].connectorID)
  {
    assert HoldAgrees(s, t);
  }

  lemma AcceptIsLocal(s: State, t: nat, id: int, now: int, s': State)
    requires Connected(s) && StartAcceptedStep(s, t, id, now, s')
    ensures LocallyConnected(s', s.starts[t].connectorID)
  {
    assert StartAgrees(s, t);
    assert forall u :: u in s.stops ==> StopAgrees(s, u);
  }

  lemma AcceptKeepsConnected(s: State, t: nat, id: int, now: int, s': State)
    requires Connected(s) && Held(s) && s.now <= now && StartAcceptedStep(s, t, id, now, s')
    requires 0 !in s.core.connectors
    ensures Connected(s')
  {
    AcceptTouchesOne(s, t, id, now, s');
    AcceptIsLocal(s, t, id, now, s');
    TouchOne(s, s', s.starts[t].connectorID);
  }

  lemma StopBeginIsLocal(s: State, t: nat, id: int, c: int, now: int, s': State)
    requires Connected(s) && s.now <= now && StopBegunStep(s, t, id, c, now, s')
    requires id != 0 && forall u :: u in s.stops ==> s.stops[u].transactionID != id
    ensures LocallyConnected(s', c)
  {
    assert ConnectorAgrees(s, c);
    assert forall u :: u in s.stops ==> StopAgrees(s, u) && s.stops[u].connectorID != c;
    assert forall u :: u in s.starts ==> StartAgrees(s, u);
  }

  lemma StopBeginKeepsConnected(s: State, t: nat, id: int, c: int, now: int, s': State)
    requires Connected(s) && s.now <= now && StopBegunStep(s, t, id, c, now, s')
    requires id != 0 && forall u :: u in s.stops ==> s.stops[u].transactionID != id
    ensures Connected(s')
  {
    StopBeginIsLocal(s, t, id, c, now, s');
    TouchOne(s, s', c);
  }

  lemma StopAnswerKeepsConnected(s: State, t: nat, confirmed: bool, now: int, s': State)
    requires Connected(s) && s.now <= now && StopAnswerStep(s, t, confirmed, now, s')
    ensures Connected(s')
  {
    if confirmed {
      var c := s.stops[t].connectorID;
      assert StopAgrees(s, t);
      assert forall u :: u in s.starts ==> StartAgrees(s, u);
      assert s'.core.connectors[c].status == IdleStatus(s'.core, c, now);
      IdleStatusIsCached(s'.core, c, now);
      TouchOne(s, s', c);
    } else {
      MovesKeepConnected(s, s');
    }
  }

  lemma AvailabilityKeepsConnected(s: State, id: int, kind: Availability, now: int, s': State)
    requires Connected(s) && s.now <= now && AvailabilityStep(s, id, kind, now, s')
    requires Obeys(NoAvailabilityDuringStart, s, ChangeAvailabilityOf(id, kind))
    ensures Connected(s')
  {
    forall c | c in s'.core.connectors
      ensures ConnectorAgrees(s', c)
    {
      if c !in Covered(s.core, id) {
        UntouchedAgrees(s, s', c);
      }
    }
  }

  lemma ResetKeepsConnected(s: State, now: int, s': State)
    requires s.starts == map[] && s.stops == map[] && ResetStep(s, now, s')
    ensures Connected(s')
  {
    forall c | c in s'.core.connectors
      ensures ConnectorAgrees(s', c)
    {
      assert s'.core.connectors[c].status == IdleStatus(s'.core, c, now);
      IdleStatusIsCached(s'.core, c, now);
    }
  }

  lemma IdleUnlessBusy(s: State, c: int)
    requires Connected(s) && c in s.core.connectors && s.core.connectors[c].transactionID >= 0 && !Busy(s, c)
    ensures IsIdle(s.core.connectors[c].status) && s.core.connectors[c].transactionID == 0
    ensures forall t :: t in s.stops ==> s.stops[t].connectorID != c
  {
    assert ConnectorAgrees(s, c);
    assert forall t :: t in s.stops ==> StopAgrees(s, t);
  }

  lemma ReleaseTouchesOne(n: nat, s: State, r: int, now: int)
    requires Shape(n, s.core) && s.now <= now && r in s.core.reservations
    ensures OnlyTouches(s, WithCore(s, Released(s.core, r, now)).(now := now), s.core.reservations[r].connectorID)
  {}

  /** Dropping one reservation that is not bound to a busy connector. */
  lemma ReleaseKeepsConnected(n: nat, s: State, r: int, now: int)
    requires Connected(s) && Shape(n, s.core) && s.now <= now && !BoundToBusy(s, r)
    ensures Connected(WithCore(s, Released(s.core, r, now)).(now := now))
  {
    var s' := WithCore(s, Released(s.core, r, now)).(now := now);
    if r in s.core.reservations {
      var c := s.core.reservations[r].connectorID;
      assert 0 !in s.core.connectors;
      assert forall t :: t in s.starts ==> StartAgrees(s, t);
      assert forall t :: t in s.stops ==> StopAgrees(s, t);
      if c != 0 {
        assert ConnectorAgrees(s, c);
        IdleUnlessBusy(s, c);
        assert s'.core.connectors[c].status == IdleStatus(s'.core, c, now);
        IdleStatusIsCached(s'.core, c, now);
      }
      ReleaseTouchesOne(n, s, r, now);
      TouchOne(s, s', c);
    } else {
      MovesKeepConnected(s, s');
    }
  }

  ghost predicate Installs(s: State, request: ReserveRequest, s': State) {
    && request.expiry.Some? && request.reservationId !in s.core.reservations
    && (request.connectorId > 0 ==> request.connectorId in s.core.connectors)
    && s'.now == s.now && s'.core == Stored(s.core, request) && s'.starts == s.starts && s'.stops == s.stops
  }

  lemma GrantTouchesOne(s: State, request: ReserveRequest, s': State)
    requires 0 !in s.core.connectors && Installs(s, request, s')
    ensures OnlyTouches(s, s', request.connectorId)
  {}

  lemma GrantIsLocal(s: State, request: ReserveRequest, s': State)
    requires Connected(s) && (forall k :: k in s.core.connectors ==> k > 0) && Installs(s, request, s')
    requires request.connectorId != 0 ==> NamedReserveAnswer(s.core, request.connectorId) == ReserveAccepted
    ensures LocallyConnected(s', request.connectorId)
  {
    var c := request.connectorId;
    assert forall t :: t in s.starts ==> StartAgrees(s, t);
    assert forall t :: t in s.stops ==> StopAgrees(s, t);
    if c in s.core.connectors {
      assert ConnectorAgrees(s, c);
      assert s'.core.reservations[request.reservationId].connectorID == c;
      assert !Unbound(s'.core.reservations, c);
    }
  }

  lemma GrantKeepsConnected(s: State, request: ReserveRequest, s': State)
    requires Connected(s) && (forall k :: k in s.core.connectors ==> k > 0) && Installs(s, request, s')
    requires request.connectorId != 0 ==> NamedReserveAnswer(s.core, request.connectorId) == ReserveAccepted
    ensures Connected(s')
  {
    GrantTouchesOne(s, request, s');
    GrantIsLocal(s, request, s');
    TouchOne(s, s', request.connectorId);
  }

  lemma ReserveKeepsConnected(
      n: nat, s: State, request: ReserveRequest, checkedAt: int, verdict: ReserveAnswer, now: int, s': State)
    requires Connected(s) && Shape(n, s.core) && s.now <= now && ReserveStep(s, request, checkedAt, verdict, now, s')
    requires FutureExpiry(request, checkedAt) ==> !BoundToBusy(s, request.reservationId)
    ensures Connected(s')
  {
    if FutureExpiry(request, checkedAt) {
      var base := Released(s.core, request.reservationId, now);
      ReleaseKeepsConnected(n, s, request.reservationId, now);
      NarrowingKeepsShape(n, s.core, base);
      if verdict == ReserveAccepted {
        GrantKeepsConnected(WithCore(s, base).(now := now), request, s');
      }
    } else {
      MovesKeepConnected(s, s');
    }
  }

  lemma SweepKeepsConnected(n: nat, s: State, at: int, now: int, s': State)
    requires Connected(s) && Shape(n, s.core) && s.now <= now && SweepStep(s, at, now, s')
    requires forall r :: r in Expired(s.core, at) ==> !BoundToBusy(s, r)
    ensures Connected(s')
  {
    forall c | c in s'.core.connectors
      ensures ConnectorAgrees(s', c)
      ensures LosesReservation(s.core, c, at) ==> !Busy(s, c)
    {
      assert ConnectorAgrees(s, c);
      if LosesReservation(s.core, c, at) {
        var r :| r in s.core.reservations && !Live(s.core.reservations[r], at) && s.core.reservations[r].connectorID == c;
        assert r in Expired(s.core, at) && !BoundToBusy(s, r);
        IdleUnlessBusy(s, c);
        assert s'.core.connectors[c].status == IdleStatus(s'.core, c, now);
        IdleStatusIsCached(s'.core, c, now);
      } else {
        UntouchedAgrees(s, s', c);
      }
    }
    forall t | t in s'.starts
      ensures StartAgrees(s', t)
    {
      assert StartAgrees(s, t) && Busy(s, s.starts[t].connectorID);
    }
    forall t | t in s'.stops
      ensures StopAgrees(s', t)
    {
      assert StopAgrees(s, t) && ConnectorAgrees(s, s.stops[t].connectorID) && Busy(s, s.stops[t].connectorID);
    }
  }

  lemma TickKeepsConnected(opts: Options, s: State, now: int, s': State)
    requires Connected(s) && s.now <= now && TickStep(opts, s, now, s')
    ensures Connected(s')
  {
    forall c | c in s'.core.connectors
      ensures ConnectorAgrees(s', c)
    {
      assert ConnectorAgrees(s, c);
      UntouchedAgrees(s, s', c);
    }
    assert forall t :: t in s.starts ==> StartAgrees(s, t);
    assert forall t :: t in s.stops ==> StopAgrees(s, t);
  }

  lemma StartMovesKeepConnected(s: State, t: nat, now: int, s': State)
    requires Connected(s) && s.now <= now
    requires StartConfigurationStep(s, t, now, s') || AuthorizeStep(s, t, true, now, s') || StartMeterStep(s, t, now, s')
    ensures Connected(s')
  {
    MovesKeepConnected(s, s');
  }

  lemma RemoteStartKeepsConnected(
      s: State, t: nat, requested: Option<int>, tag: string, choice: Choice, now: int, s': State)
    requires Connected(s) && s.now <= now && RemoteStartStep(s, t, requested, tag, choice, now, s')
    ensures Connected(s')
  {
    if choice.Chosen? {
      ChosenIsAcceptedByName(s.core, now, requested, tag, choice.connectorID, choice.reservationID);
      BeginKeepsConnected(s, t, tag, choice.connectorID, choice.reservationID, now, s');
    } else {
      MovesKeepConnected(s, s');
    }
  }

  lemma StartConnected(n: nat, s: State, e: Event, s': State)
    requires Connected(s) && Held(s) && Shape(n, s.core) && s.now <= e.now && StartNext(s, e, s')
    ensures Connected(s')
  {
    match e.action
    case RemoteStart(t, requested, tag, choice) =>
      RemoteStartKeepsConnected(s, t, requested, tag, choice, e.now, s');
    case StartReadsConfiguration(t) => StartMovesKeepConnected(s, t, e.now, s');
    case StartReadsMeter(t) => StartMovesKeepConnected(s, t, e.now, s');
    case AuthorizeAnswered(t, accepted) =>
      if accepted {
        StartMovesKeepConnected(s, t, e.now, s');
      } else {
        FailureKeepsConnected(s, t, e.now);
      }
    case StartAnswered(t, answer) =>
      if answer.StartAccepted? {
        AcceptKeepsConnected(s, t, answer.transactionID, e.now, s');
      } else {
        FailureKeepsConnected(s, t, e.now);
      }
  }

  lemma StopConnected(s: State, e: Event, s': State)
    requires Connected(s) && s.now <= e.now && StopNext(s, e, s')
    requires Obeys(NoSecondStop, s, e.action) && Obeys(NoStopOfZero, s, e.action)
    ensures Connected(s')
  {
    match e.action
    case RemoteStop(t, id, found) =>
      if found.Some? {
        StopBeginKeepsConnected(s, t, id, found.value, e.now, s');
      } else {
        MovesKeepConnected(s, s');
      }
    case StopReadsMeter(_) => MovesKeepConnected(s, s');
    case StopAnswered(t, confirmed) => StopAnswerKeepsConnected(s, t, confirmed, e.now, s');
  }

  lemma ReservationConnected(n: nat, s: State, e: Event, s': State)
    requires Connected(s) && Shape(n, s.core) && s.now <= e.now && ReservationNext(s, e, s')
    requires Obeys(NoRemovalWhileBusy, s, e.action)
    ensures Connected(s')
  {
    match e.action
    case ReserveNow(request, checkedAt, verdict) =>
      ReserveKeepsConnected(n, s, request, checkedAt, verdict, e.now, s');
    case CancelReservation(id) => ReleaseKeepsConnected(n, s, id, e.now);
    case Sweep(at) => SweepKeepsConnected(n, s, at, e.now, s');
  }

  lemma StationConnected(opts: Options, s: State, e: Event, s': State)
    requires Connected(s) && s.now <= e.now && StationNext(opts, s, e, s')
    requires Obeys(NoAvailabilityDuringStart, s, e.action) && Obeys(NoResetInFlight, s, e.action)
    ensures Connected(s')
  {
    match e.action
    case ChangeAvailabilityOf(id, kind) => AvailabilityKeepsConnected(s, id, kind, e.now, s');
    case Reset => ResetKeepsConnected(s, e.now, s');
    case Tick => TickKeepsConnected(opts, s, e.now, s');
    case SetAuthorizeRemote(_) => MovesKeepConnected(s, s');
    case TriggeredSample(_) => MovesKeepConnected(s, s');
  }
}
