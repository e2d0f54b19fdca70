/** What every event does to every field, as one table read off the protocol:
    a second definition, by connector and by reservation, that shares nothing
    with the sections.  From it, what the fields say about the past of a run. */
module Effects {
  import opened Station
  import opened Access
  import opened Fields
  import opened Protocol
  import opened EveryRun

  // ---------------------------------------------------------------------
  // One connector
  // ---------------------------------------------------------------------

  ghost predicate Awaited(rs: map<int, Reservation>, c: int, now: int) {
    exists r :: r in rs && rs[r].connectorID == c && rs[r].expiry > now
  }

  /** The connector with the idle status that fits its availability. */
  ghost function Idled(connector: Connector, rs: map<int, Reservation>, c: int, now: int): Connector {
    connector.(status :=
      if connector.availability == Inoperative then Unavailable
      else if Awaited(rs, c, now) then Reserved
      else Available)
  }

  /** Goroutine `t` is a start, or a stop, on connector `c`. */
  predicate StartsOn(s: State, t: nat, c: int) {
    t in s.starts && s.starts[t].connectorID == c
  }

  predicate StopsOn(s: State, t: nat, c: int) {
    t in s.stops && s.stops[t].connectorID == c
  }

  ghost function Ended(connector: Connector, rs: map<int, Reservation>, c: int, now: int): Connector {
    Idled(connector, rs, c, now).(transactionID := 0, idTag := "")
  }

  ghost predicate LosesExpired(rs: map<int, Reservation>, c: int, at: int) {
    exists r :: r in rs && rs[r].connectorID == c && rs[r].expiry <= at
  }

  /** The request is taken up, and not turned away as already expired. */
  predicate TakenUp(request: ReserveRequest, checkedAt: int) {
    request.expiry.Some? && checkedAt < request.expiry.value
  }

  /** Connector `c` after event `e`, where `rs` are the reservations then. */
  ghost function ConnectorAfter(opts: Options, s: State, e: Event, rs: map<int, Reservation>, c: int): Connector
    requires c in s.core.connectors
  {
    var before := s.core.connectors[c];
    match e.action
    case RemoteStart(_, _, tag, choice) =>
      if choice.Chosen? && choice.connectorID == c then before.(status := Preparing, idTag := tag) else before
    case AuthorizeAnswered(t, accepted) =>
      if !accepted && StartsOn(s, t, c) then Idled(before, rs, c, e.now).(idTag := "") else before
    case StartAnswered(t, answer) =>
      if !StartsOn(s, t, c) then before
      else if answer.StartAccepted? then before.(transactionID := answer.transactionID, status := Charging)
      else Idled(before, rs, c, e.now).(idTag := "")
    case RemoteStop(_, _, found) => if found == Some(c) then before.(status := Finishing) else before
    case StopAnswered(t, confirmed) =>
      if confirmed && StopsOn(s, t, c) then Ended(before, rs, c, e.now) else before
    case Reset => Ended(before, rs, c, e.now)
    case ChangeAvailabilityOf(id, kind) =>
      if id != 0 && id != c then before
      else if before.transactionID > 0 then before.(availability := kind)
      else Idled(before.(availability := kind), rs, c, e.now)
    case ReserveNow(request, checkedAt, verdict) =>
      if verdict == ReserveAccepted && request.connectorId == c then before.(status := Reserved)
      else if TakenUp(request, checkedAt) && BoundTo(s.core, request.reservationId, c) then Idled(before, rs, c, e.now)
      else before
    case CancelReservation(id) => if BoundTo(s.core, id, c) then Idled(before, rs, c, e.now) else before
    case Sweep(at) => if LosesExpired(s.core.reservations, c, at) then Idled(before, rs, c, e.now) else before
    case Tick => before.(meter := before.meter + opts.meterStep)
    case _ => before
  }

  lemma AnswerWrites(opts: Options, s: State, t: nat, answer: StartAnswer, now: int, s': State, c: int)
    requires StartAnswerStep(s, t, answer, now, s') && c in s.core.connectors
    ensures c in s'.core.connectors
    ensures s'.core.connectors[c] ==
      ConnectorAfter(opts, s, Event(StartAnswered(t, answer), now), s'.core.reservations, c)
  {}

  lemma StartWrites(opts: Options, s: State, e: Event, s': State, c: int)
    requires StartNext(s, e, s') && c in s.core.connectors
    ensures c in s'.core.connectors
    ensures s'.core.connectors[c] == ConnectorAfter(opts, s, e, s'.core.reservations, c)
  {
    match e.action
    case StartAnswered(t, answer) => AnswerWrites(opts, s, t, answer, e.now, s', c);
    case RemoteStart(_, _, _, _) =>
    case AuthorizeAnswered(_, _) =>
    case StartReadsConfiguration(_) =>
    case StartReadsMeter(_) =>
  }

  lemma StopAnswerWrites(opts: Options, s: State, t: nat, confirmed: bool, now: int, s': State, c: int)
    requires StopAnswerStep(s, t, confirmed, now, s') && c in s.core.connectors
    ensures c in s'.core.connectors
    ensures s'.core.connectors[c] ==
      ConnectorAfter(opts, s, Event(StopAnswered(t, confirmed), now), s'.core.reservations, c)
  {}

  lemma StopWrites(opts: Options, s: State, e: Event, s': State, c: int)
    requires StopNext(s, e, s') && c in s.core.connectors
    ensures c in s'.core.connectors
    ensures s'.core.connectors[c] == ConnectorAfter(opts, s, e, s'.core.reservations, c)
  {
    match e.action
    case StopAnswered(t, confirmed) => StopAnswerWrites(opts, s, t, confirmed, e.now, s', c);
    case RemoteStop(_, _, _) =>
    case StopReadsMeter(_) =>
  }

  lemma AvailabilityWrites(opts: Options, s: State, id: int, kind: Availability, now: int, s': State, c: int)
    requires AvailabilityStep(s, id, kind, now, s') && c in s.core.connectors && 0 !in s.core.connectors
    ensures c in s'.core.connectors
    ensures s'.core.connectors[c] ==
      ConnectorAfter(opts, s, Event(ChangeAvailabilityOf(id, kind), now), s'.core.reservations, c)
  {
    assert c in Covered(s.core, id) <==> id == 0 || id == c;
    assert LiveBound(s'.core.reservations, c, now) <==> Awaited(s'.core.reservations, c, now);
  }

  lemma ResetWrites(opts: Options, s: State, now: int, s': State, c: int)
    requires ResetStep(s, now, s') && c in s.core.connectors
    ensures c in s'.core.connectors
    ensures s'.core.connectors[c] == ConnectorAfter(opts, s, Event(Reset, now), s'.core.reservations, c)
  {}

  lemma StationWrites(opts: Options, s: State, e: Event, s': State, c: int)
    requires StationNext(opts, s, e, s') && c in s.core.connectors && 0 !in s.core.connectors
    ensures c in s'.core.connectors
    ensures s'.core.connectors[c] == ConnectorAfter(opts, s, e, s'.core.reservations, c)
  {
    match e.action
    case ChangeAvailabilityOf(id, kind) => AvailabilityWrites(opts, s, id, kind, e.now, s', c);
    case Reset => ResetWrites(opts, s, e.now, s', c);
    case SetAuthorizeRemote(_) =>
    case Tick =>
    case TriggeredSample(_) =>
  }

  lemma ReserveWrites(
      opts: Options, s: State, request: ReserveRequest, checkedAt: int, verdict: ReserveAnswer, now: int, s': State, c: int)
    requires ReserveStep(s, request, checkedAt, verdict, now, s')
    requires c in s.core.connectors && (forall d :: d in s.core.connectors ==> d > 0)
    ensures c in s'.core.connectors
    ensures s'.core.connectors[c] ==
      ConnectorAfter(opts, s, Event(ReserveNow(request, checkedAt, verdict), now), s'.core.reservations, c)
  {
    if TakenUp(request, checkedAt) {
      var base := Released(s.core, request.reservationId, now);
      ReleaseWrites(s.core, request.reservationId, now, c);
      if verdict == ReserveAccepted {
        assert GrantedStep(s, base, request, now, s');
        assert s'.core == Stored(base, request);
        if request.connectorId != c {
          SameAwaited(base.reservations, s'.core.reservations, request.reservationId, c, now);
        }
      } else {
        assert s'.core == base;
      }
    } else {
      assert s'.core == s.core;
    }
  }

  lemma ReleaseWrites(core: Core, id: int, now: int, c: int)
    requires StoreShape(core) && c in core.connectors && (forall d :: d in core.connectors ==> d > 0)
    ensures var left := Released(core, id, now);
      && c in left.connectors && left.reservations == core.reservations - {id}
      && left.connectors[c] ==
           if BoundTo(core, id, c) then Idled(core.connectors[c], left.reservations, c, now) else core.connectors[c]
  {
    var left := Released(core, id, now);
    assert left.reservations == core.reservations - {id};
    assert LiveBound(left.reservations, c, now) <==> Awaited(left.reservations, c, now);
  }

  lemma SameAwaited(rs: map<int, Reservation>, rs': map<int, Reservation>, r: int, c: int, now: int)
    requires r !in rs && r in rs' && rs'[r].connectorID != c && rs' == rs[r := rs'[r]]
    ensures Awaited(rs, c, now) <==> Awaited(rs', c, now)
  {
    if q :| q in rs && rs[q].connectorID == c && rs[q].expiry > now {
      assert q in rs' && rs'[q] == rs[q];
    }
  }

  lemma CancelWrites(opts: Options, s: State, id: int, now: int, s': State, c: int)
    requires CancelStep(s, id, now, s') && c in s.core.connectors && (forall d :: d in s.core.connectors ==> d > 0)
    ensures c in s'.core.connectors
    ensures s'.core.connectors[c] == ConnectorAfter(opts, s, Event(CancelReservation(id), now), s'.core.reservations, c)
  {}

  lemma SweepWrites(opts: Options, s: State, at: int, now: int, s': State, c: int)
    requires SweepStep(s, at, now, s') && c in s.core.connectors
    ensures c in s'.core.connectors
    ensures s'.core.connectors[c] == ConnectorAfter(opts, s, Event(Sweep(at), now), s'.core.reservations, c)
  {}

  /** In every run every event leaves every connector as the table says. */
  lemma ConnectorEffect(run: Run, i: nat, c: int)
    requires IsRun(run) && i < |run.events| && c in run.states[i].core.connectors
    ensures c in run.states[i + 1].core.connectors
    ensures run.states[i + 1].core.connectors[c] ==
      ConnectorAfter(run.opts, run.states[i], run.events[i], run.states[i + 1].core.reservations, c)
  {
    var s, e, s' := run.states[i], run.events[i], run.states[i + 1];
    AlwaysInRun(run, i);
    assert StepAt(run, i);
    if StartNext(s, e, s') {
      StartWrites(run.opts, s, e, s', c);
    } else if StopNext(s, e, s') {
      StopWrites(run.opts, s, e, s', c);
    } else if StationNext(run.opts, s, e, s') {
      StationWrites(run.opts, s, e, s', c);
    } else {
      match e.action
      case ReserveNow(request, checkedAt, verdict) =>
        ReserveWrites(run.opts, s, request, checkedAt, verdict, e.now, s', c);
      case CancelReservation(id) => CancelWrites(run.opts, s, id, e.now, s', c);
      case Sweep(at) => SweepWrites(run.opts, s, at, e.now, s', c);
    }
  }

  // ---------------------------------------------------------------------
  // One reservation
  // ---------------------------------------------------------------------

  function Kept(rs: map<int, Reservation>, r: int): Option<Reservation> {
    if r in rs then Some(rs[r]) else None
  }

  /** The event takes reservation `r` away, if what is stored there is `stored`. */
  ghost predicate Removes(s: State, e: Event, r: int, stored: Reservation) {
    match e.action
    case CancelReservation(id) => id == r
    case ReserveNow(request, checkedAt, _) => request.reservationId == r && TakenUp(request, checkedAt)
    case Sweep(at) => stored.expiry <= at
    case ChangeAvailabilityOf(id, kind) =>
      kind == Inoperative && stored.connectorID != 0 && (id == 0 || id == stored.connectorID)
    case StartAnswered(t, answer) =>
      answer.StartAccepted? && r > 0 && t in s.starts && s.starts[t].reservationID == r
    case _ => false
  }

  /** The event stores `stored` as reservation `r`. */
  ghost predicate Adds(e: Event, r: int, stored: Reservation) {
    && e.action.ReserveNow? && e.action.verdict == ReserveAccepted
    && var request := e.action.request;
       && request.reservationId == r && request.expiry.Some?
       && stored == Reservation(request.connectorId, request.idTag, request.parentIdTag, request.expiry.value)
  }

  ghost predicate AfterIs(s: State, e: Event, rs: map<int, Reservation>, r: int) {
    && (forall stored :: Kept(rs, r) == Some(stored) <==>
          Adds(e, r, stored) || (Kept(s.core.reservations, r) == Some(stored) && !Removes(s, e, r, stored)))
  }

  lemma ReserveStores(s: State, request: ReserveRequest, checkedAt: int, verdict: ReserveAnswer, now: int, s': State, r: int)
    requires ReserveStep(s, request, checkedAt, verdict, now, s')
    ensures AfterIs(s, Event(ReserveNow(request, checkedAt, verdict), now), s'.core.reservations, r)
  {
    if TakenUp(request, checkedAt) {
      var base := Released(s.core, request.reservationId, now);
      assert base.reservations == s.core.reservations - {request.reservationId};
    }
  }

  lemma AvailabilityStores(s: State, id: int, kind: Availability, now: int, s': State, r: int)
    requires AvailabilityStep(s, id, kind, now, s') && StoreShape(s.core) && 0 !in s.core.connectors
    ensures AfterIs(s, Event(ChangeAvailabilityOf(id, kind), now), s'.core.reservations, r)
  {
    if r in s.core.reservations {
      var c := s.core.reservations[r].connectorID;
      assert c in Covered(s.core, id) <==> c != 0 && (id == 0 || id == c);
    }
  }

  lemma StartStores(s: State, e: Event, s': State, r: int)
    requires StartNext(s, e, s')
    ensures AfterIs(s, e, s'.core.reservations, r)
  {
    if e.action.StartAnswered? && e.action.answer.StartAccepted? {
    } else {
      assert s'.core.reservations == s.core.reservations;
    }
  }

  lemma OthersStore(s: State, e: Event, s': State, r: int)
    requires ReservationNext(s, e, s') && !e.action.ReserveNow?
    ensures AfterIs(s, e, s'.core.reservations, r)
  {}

  /** In every run an event stores exactly what it adds and what was stored and
      it does not remove. */
  lemma ReservationEffect(run: Run, i: nat, r: int)
    requires IsRun(run) && i < |run.events|
    ensures AfterIs(run.states[i], run.events[i], run.states[i + 1].core.reservations, r)
  {
    var s, e, s' := run.states[i], run.events[i], run.states[i + 1];
    AlwaysInRun(run, i);
    assert StepAt(run, i);
    if StartNext(s, e, s') {
      StartStores(s, e, s', r);
    } else if StopNext(s, e, s') {
      assert s'.core.reservations == s.core.reservations;
    } else if ReservationNext(s, e, s') {
      if e.action.ReserveNow? {
        ReserveStores(s, e.action.request, e.action.checkedAt, e.action.verdict, e.now, s', r);
      } else {
        OthersStore(s, e, s', r);
      }
    } else if e.action.ChangeAvailabilityOf? {
      AvailabilityStores(s, e.action.connectorId, e.action.kind, e.now, s', r);
    } else {
      assert s'.core.reservations == s.core.reservations;
    }
  }

  // ---------------------------------------------------------------------
  // The verdict on a ReserveNow
  // ---------------------------------------------------------------------

  lemma SameZeroVerdict(a: Core, b: Core, now: int, tag: string, verdict: ReserveAnswer)
    requires a.reservations == b.reservations && a.connectors.Keys == b.connectors.Keys
    requires forall c :: c in a.connectors ==>
      && a.connectors[c].availability == b.connectors[c].availability
      && a.connectors[c].transactionID == b.connectors[c].transactionID
    requires ZeroMayAnswer(a, now, tag, verdict)
    ensures ZeroMayAnswer(b, now, tag, verdict)
  {
    assert forall c :: Eligible(a, c) <==> Eligible(b, c);
    if verdict == ReserveAccepted {
      var c, r :| Eligible(a, c) && MayGrant(a.reservations, now, c, tag, r);
      assert Eligible(b, c) && MayGrant(b.reservations, now, c, tag, r);
    } else if verdict == ReserveOccupied {
      var c :| c in a.connectors && a.connectors[c].availability == Operative;
      assert c in b.connectors;
    }
  }

  lemma ZeroVerdictAfterRelease(core: Core, id: int, now: int, tag: string, verdict: ReserveAnswer)
    requires StoreShape(core)
    ensures ZeroMayAnswer(Released(core, id, now), now, tag, verdict)
       <==> ZeroMayAnswer(core.(reservations := core.reservations - {id}), now, tag, verdict)
  {
    var left, rest := Released(core, id, now), core.(reservations := core.reservations - {id});
    assert left.reservations == rest.reservations;
    assert left.connectors.Keys == rest.connectors.Keys;
    if ZeroMayAnswer(left, now, tag, verdict) {
      SameZeroVerdict(left, rest, now, tag, verdict);
    }
    if ZeroMayAnswer(rest, now, tag, verdict) {
      SameZeroVerdict(rest, left, now, tag, verdict);
    }
  }

  /** In every run: a request that is already expired is rejected; a named one
      is answered as the connector was before it; a connector-zero one by what
      the walks can say without the reservation it replaces. */
  lemma ReserveVerdict(run: Run, i: nat)
    requires IsRun(run) && i < |run.events| && run.events[i].action.ReserveNow?
    ensures var core, a, now := run.states[i].core, run.events[i].action, run.events[i].now;
      var rest := core.(reservations := core.reservations - {a.request.reservationId});
      if !TakenUp(a.request, a.checkedAt) then a.verdict == ReserveRejected
      else if a.request.connectorId != 0 then
        a.verdict == NamedVerdict(core, a.request.reservationId, a.request.connectorId)
      else
        match a.verdict
        case ReserveAccepted => exists c :: Ready(rest, c) && CanGrant(rest, now, c, a.request.idTag)
        case ReserveOccupied =>
          && (exists c :: c in rest.connectors && rest.connectors[c].availability == Operative)
          && (forall c :: Ready(rest, c) ==> CanRefuse(rest, now, c, a.request.idTag))
        case ReserveUnavailable => forall c :: c in rest.connectors ==> rest.connectors[c].availability != Operative
        case _ => false
  {
    var s, e, s' := run.states[i], run.events[i], run.states[i + 1];
    var a := e.action;
    AlwaysInRun(run, i);
    assert StepAt(run, i);
    assert ReserveStep(s, a.request, a.checkedAt, a.verdict, e.now, s');
    if TakenUp(a.request, a.checkedAt) {
      if a.request.connectorId != 0 {
        NamedVerdictInFields(s.core, a.request, e.now, a.verdict);
      } else {
        var rest := s.core.(reservations := s.core.reservations - {a.request.reservationId});
        ZeroVerdictAfterRelease(s.core, a.request.reservationId, e.now, a.request.idTag, a.verdict);
        ZeroVerdictInFields(rest, e.now, a.request.idTag, a.verdict);
      }
    }
  }
}
