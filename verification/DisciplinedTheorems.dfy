/** What disciplined runs guarantee beyond every run. */
module DisciplinedTheorems {
  import opened Station
  import opened Access
  import opened Protocol
  import opened EveryRun
  import opened Discipline
  import opened Holding
  import opened Theorems

  // ---------------------------------------------------------------------
  // Disciplined runs
  // ---------------------------------------------------------------------

  /** Status, transaction, tag and goroutines of a connector fit together. */
  lemma ConnectorsFitTogether(run: Run, i: nat, c: int)
    requires DisciplinedRun(run) && i < |run.states| && c in run.states[i].core.connectors
    ensures var s := run.states[i];
      var connector := s.core.connectors[c];
      && (connector.status == Preparing <==> exists t :: t in s.starts && s.starts[t].connectorID == c)
      && (forall t, u ::
            t in s.starts && u in s.starts && s.starts[t].connectorID == s.starts[u].connectorID == c ==> t == u)
      && (connector.status == Preparing ==> connector.transactionID == 0)
      && (connector.transactionID > 0 <==> connector.status == Charging || connector.status == Finishing)
      && (IsIdle(connector.status) ==>
            && connector.transactionID == 0 && connector.idTag == ""
            && (forall t :: t in s.starts ==> s.starts[t].connectorID != c)
            && (forall t :: t in s.stops ==> s.stops[t].connectorID != c))
      && (forall t :: t in s.stops && s.stops[t].connectorID == c ==>
            connector.status == Finishing && s.stops[t].transactionID == connector.transactionID)
      && connector.status != Faulted
  {
    AgreementInRun(run, i);
    var s := run.states[i];
    assert ConnectorAgrees(s, c);
    assert forall t :: t in s.starts ==> StartAgrees(s, t);
    assert forall t :: t in s.stops ==> StopAgrees(s, t);
  }

  /** The idle status shown is the one its definition gives. */
  lemma IdleStatusIsRight(run: Run, i: nat, c: int)
    requires DisciplinedRun(run) && i < |run.states| && c in run.states[i].core.connectors
    requires ConnectorAt(run, i, c).transactionID == 0 && !Starting(run.states[i], c)
    ensures var s := run.states[i];
      var connector := s.core.connectors[c];
      && (connector.status == Unavailable <==> connector.availability == Inoperative)
      && (connector.availability == Operative && LiveBound(s.core.reservations, c, s.now) ==> connector.status == Reserved)
      && (connector.availability == Operative && Unbound(s.core.reservations, c) ==> connector.status == Available)
      && (connector.availability == Operative ==> connector.status == Reserved || connector.status == Available)
  {
    AgreementInRun(run, i);
    assert ConnectorAgrees(run.states[i], c);
  }

  // ---------------------------------------------------------------------
  // Transactions
  // ---------------------------------------------------------------------

  /** Transactions open at the Resets among the first `i` events. */
  ghost function ClearedBefore(run: Run, i: nat): nat
    requires i <= |run.events| <= |run.states|
  {
    if i == 0 then 0
    else ClearedBefore(run, i - 1) +
         if run.events[i - 1].action.Reset? then |OpenConnectors(run.states[i - 1].core)| else 0
  }

  lemma StepClears(opts: Options, s: State, e: Event, s': State)
    requires Next(opts, s, e, s')
    ensures s'.clearedByReset == s.clearedByReset + if e.action.Reset? then |OpenConnectors(s.core)| else 0
  {
    if ReservationNext(s, e, s') {
      ReservationsAreNotCounted(s, e, s');
    } else if StartNext(s, e, s') {
      StartsAreCounted(s, e, s');
    }
  }

  lemma {:induction false} ClearsAreCounted(run: Run, i: nat)
    requires IsRun(run) && i < |run.states|
    ensures run.states[i].clearedByReset == ClearedBefore(run, i)
  {
    if i > 0 {
      ClearsAreCounted(run, i - 1);
      assert StepAt(run, i - 1);
      StepClears(run.opts, run.states[i - 1], run.events[i - 1], run.states[i]);
    }
  }

  /** Transactions are conserved: accepted starts, less confirmed stops, less
      the transactions Resets found open, are the connectors that have one. */
  lemma TransactionsAreConserved(run: Run, i: nat)
    requires DisciplinedRun(run) && i < |run.states|
    ensures Count(run.events[0..i], Accepts) - Count(run.events[0..i], Stops) - ClearedBefore(run, i)
         == |OpenConnectors(run.states[i].core)|
  {
    AgreementInRun(run, i);
    CountsBetween(run, 0, i, Accepts);
    CountsBetween(run, 0, i, Stops);
    ClearsAreCounted(run, i);
  }

  /** The start fails at event `e`. */
  predicate Fails(e: Event) {
    || (e.action.AuthorizeAnswered? && !e.action.accepted)
    || (e.action.StartAnswered? && !e.action.answer.StartAccepted?)
  }

  /** What a start goroutine writes on its connector. */
  ghost predicate ThreadWrites(s: State, e: Event, s': State, t: nat) {
    && StartAt(s, t)
    && var c := s.starts[t].connectorID;
       s'.core.connectors == s.core.connectors[c :=
         if Fails(e) then s.core.connectors[c].(status := IdleStatus(s.core, c, e.now), idTag := "")
         else if IsOf(e, Accepts) then
           s.core.connectors[c].(transactionID := e.action.answer.transactionID, status := Charging)
         else s.core.connectors[c]]
  }

  lemma StartThreadWrites(s: State, e: Event, s': State)
    requires StartNext(s, e, s') && !e.action.RemoteStart?
    ensures e.action.StartReadsConfiguration? || e.action.AuthorizeAnswered?
         || e.action.StartReadsMeter? || e.action.StartAnswered?
    ensures ThreadWrites(s, e, s', e.action.thread)
  {}

  /** The event ends the transaction open on connector `c`. */
  ghost predicate Ends(s: State, e: Event, c: int) {
    || e.action.Reset?
    || (&& e.action.StopAnswered? && e.action.confirmed
        && e.action.thread in s.stops && s.stops[e.action.thread].connectorID == c)
  }

  ghost predicate Carries(s: State, c: int, id: int, tag: string) {
    c in s.core.connectors && s.core.connectors[c].transactionID == id && s.core.connectors[c].idTag == tag
  }

  lemma BeginCarries(s: State, e: Event, s': State, c: int, id: int, tag: string)
    requires StartNext(s, e, s') && e.action.RemoteStart? && id > 0 && Carries(s, c, id, tag)
    ensures Carries(s', c, id, tag)
  {
    if e.action.choice.Chosen? {
      ChosenIsAcceptedByName(s.core, e.now, e.action.requested, e.action.idTag,
                             e.action.choice.connectorID, e.action.choice.reservationID);
    }
  }

  lemma ThreadCarries(s: State, e: Event, s': State, t: nat, c: int, id: int, tag: string)
    requires Connected(s) && ThreadWrites(s, e, s', t) && id > 0 && Carries(s, c, id, tag)
    ensures Carries(s', c, id, tag)
  {
    assert ConnectorAgrees(s, c) && StartAgrees(s, t);
  }

  lemma StartCarries(s: State, e: Event, s': State, c: int, id: int, tag: string)
    requires Connected(s) && StartNext(s, e, s') && id > 0 && Carries(s, c, id, tag)
    ensures Carries(s', c, id, tag)
  {
    if e.action.RemoteStart? {
      BeginCarries(s, e, s', c, id, tag);
    } else {
      StartThreadWrites(s, e, s');
      ThreadCarries(s, e, s', e.action.thread, c, id, tag);
    }
  }

  lemma ReserveCarries(
      s: State, request: ReserveRequest, checkedAt: int, verdict: ReserveAnswer, now: int, s': State,
      c: int, id: int, tag: string)
    requires ReserveStep(s, request, checkedAt, verdict, now, s') && Carries(s, c, id, tag)
    ensures Carries(s', c, id, tag)
  {}

  lemma SweepCarries(s: State, at: int, now: int, s': State, c: int, id: int, tag: string)
    requires SweepStep(s, at, now, s') && Carries(s, c, id, tag)
    ensures Carries(s', c, id, tag)
  {}

  lemma ReservationCarries(s: State, e: Event, s': State, c: int, id: int, tag: string)
    requires ReservationNext(s, e, s') && Carries(s, c, id, tag)
    ensures Carries(s', c, id, tag)
  {
    match e.action
    case ReserveNow(request, checkedAt, verdict) =>
      ReserveCarries(s, request, checkedAt, verdict, e.now, s', c, id, tag);
    case Sweep(at) => SweepCarries(s, at, e.now, s', c, id, tag);
    case CancelReservation(_) =>
  }

  lemma StopCarries(s: State, e: Event, s': State, c: int, id: int, tag: string)
    requires StopNext(s, e, s') && Carries(s, c, id, tag) && !Ends(s, e, c)
    ensures Carries(s', c, id, tag)
  {}

  lemma StationCarries(opts: Options, s: State, e: Event, s': State, c: int, id: int, tag: string)
    requires StationNext(opts, s, e, s') && Carries(s, c, id, tag) && !Ends(s, e, c)
    ensures Carries(s', c, id, tag)
  {}

  lemma StepCarries(opts: Options, s: State, e: Event, s': State, c: int, id: int, tag: string)
    requires Connected(s) && Next(opts, s, e, s') && id > 0 && Carries(s, c, id, tag) && !Ends(s, e, c)
    ensures Carries(s', c, id, tag)
  {
    if StartNext(s, e, s') {
      StartCarries(s, e, s', c, id, tag);
    } else if StopNext(s, e, s') {
      StopCarries(s, e, s', c, id, tag);
    } else if ReservationNext(s, e, s') {
      ReservationCarries(s, e, s', c, id, tag);
    } else {
      StationCarries(opts, s, e, s', c, id, tag);
    }
  }

  ghost predicate NotEnded(run: Run, i: nat, j: nat, c: int)
    requires |run.states| == |run.events| + 1 && j <= |run.events|
  {
    forall k :: i <= k < j ==> !Ends(run.states[k], run.events[k], c)
  }

  lemma EventCarries(run: Run, i: nat, c: int, id: int, tag: string)
    requires DisciplinedRun(run) && i < |run.events| && id > 0 && Carries(run.states[i], c, id, tag)
    requires !Ends(run.states[i], run.events[i], c)
    ensures Carries(run.states[i + 1], c, id, tag)
  {
    var s, e, s' := run.states[i], run.events[i], run.states[i + 1];
    AgreementInRun(run, i);
    assert StepAt(run, i);
    StepCarries(run.opts, s, e, s', c, id, tag);
  }

  lemma {:induction false} CarriedAlong(run: Run, i: nat, j: nat, c: int, id: int, tag: string)
    requires DisciplinedRun(run) && i <= j < |run.states| && id > 0 && Carries(run.states[i], c, id, tag)
    requires NotEnded(run, i, j, c)
    ensures Carries(run.states[j], c, id, tag)
    decreases j - i
  {
    if i < j {
      assert NotEnded(run, i, j - 1, c) && !Ends(run.states[j - 1], run.events[j - 1], c);
      CarriedAlong(run, i, j - 1, c, id, tag);
      EventCarries(run, j - 1, c, id, tag);
    }
  }

  /** A confirmed transaction stays on the connector it was started on, with
      the tag it was started for, until its stop is confirmed or a Reset. */
  lemma TransactionStays(run: Run, i: nat, j: nat)
    requires DisciplinedRun(run) && i < j < |run.states| && IsOf(run.events[i], Accepts)
    requires StartAt(run.states[i], run.events[i].action.thread)
    requires NotEnded(run, i + 1, j, run.states[i].starts[run.events[i].action.thread].connectorID)
    ensures var start := run.states[i].starts[run.events[i].action.thread];
      Carries(run.states[j], start.connectorID, run.events[i].action.answer.transactionID, start.idTag)
  {
    var s, e, s' := run.states[i], run.events[i], run.states[i + 1];
    var t := e.action.thread;
    AgreementInRun(run, i);
    assert StepAt(run, i);
    assert StartAgrees(s, t);
    assert StartAcceptedStep(s, t, e.action.answer.transactionID, e.now, s');
    CarriedAlong(run, i + 1, j, s.starts[t].connectorID, e.action.answer.transactionID, s.starts[t].idTag);
  }

  /** Every StopTransaction that is sent carries the tag its transaction was
      started with: `j` is the answer that confirmed the start. */
  lemma StopReportsStartTag(run: Run, i: nat, t: nat) returns (j: nat)
    requires DisciplinedRun(run) && i < |run.states| && t in run.states[i].stops && run.states[i].stops[t].pc.StopSent?
    ensures j < i && j < |run.events| && IsOf(run.events[j], Accepts)
    ensures StartAt(run.states[j], run.events[j].action.thread)
    ensures var stop, start := run.states[i].stops[t], run.states[j].starts[run.events[j].action.thread];
      && run.events[j].action.answer == StartAccepted(stop.transactionID)
      && start.connectorID == stop.connectorID
      && start.idTag == stop.pc.idTag
  {
    AgreementInRun(run, i);
    AlwaysInRun(run, i);
    var stop := run.states[i].stops[t];
    assert StopGrounded(run.opts, run.states[i], t);
    assert stop.transactionID in run.states[i].confirmed;
    assert ConfirmedRead(run.opts, run.states[i], stop.transactionID);
    j := ConfirmedEarlier(run, i, stop.transactionID);
  }

  // ---------------------------------------------------------------------
  // Status changes
  // ---------------------------------------------------------------------

  /** The changes of status an event may cause. */
  predicate IsEdge(before: Status, action: Action, after: Status) {
    if IsIdle(before) && IsIdle(after) then
      action.ChangeAvailabilityOf? || action.ReserveNow? || action.CancelReservation? || action.Sweep? || action.Reset?
    else if before == Preparing && IsIdle(after) then
      (action.AuthorizeAnswered? && !action.accepted) || (action.StartAnswered? && !action.answer.StartAccepted?)
    else if before == Preparing then
      after == Charging && action.StartAnswered? && action.answer.StartAccepted?
    else if after == Preparing then
      (before == Available || before == Reserved) && action.RemoteStart?
    else if before == Charging && after == Finishing then action.RemoteStop?
    else
      IsIdle(after) && (action.Reset? || (before == Finishing && action.StopAnswered? && action.confirmed))
  }

  lemma BeginEdges(s: State, e: Event, s': State, c: int)
    requires StartNext(s, e, s') && e.action.RemoteStart? && c in s.core.connectors
    ensures c in s'.core.connectors
    ensures s'.core.connectors[c].status != s.core.connectors[c].status ==>
      IsEdge(s.core.connectors[c].status, e.action, s'.core.connectors[c].status)
  {
    if e.action.choice.Chosen? {
      ChosenIsAcceptedByName(s.core, e.now, e.action.requested, e.action.idTag,
                             e.action.choice.connectorID, e.action.choice.reservationID);
    }
  }

  lemma ThreadEdges(s: State, e: Event, s': State, t: nat, c: int)
    requires Connected(s) && ThreadWrites(s, e, s', t) && c in s.core.connectors
    ensures c in s'.core.connectors
    ensures s'.core.connectors[c].status != s.core.connectors[c].status ==>
      IsEdge(s.core.connectors[c].status, e.action, s'.core.connectors[c].status)
  {
    assert StartAgrees(s, t);
  }

  lemma StartEdges(s: State, e: Event, s': State, c: int)
    requires Connected(s) && StartNext(s, e, s') && c in s.core.connectors
    ensures c in s'.core.connectors
    ensures s'.core.connectors[c].status != s.core.connectors[c].status ==>
      IsEdge(s.core.connectors[c].status, e.action, s'.core.connectors[c].status)
  {
    if e.action.RemoteStart? {
      BeginEdges(s, e, s', c);
    } else {
      StartThreadWrites(s, e, s');
      ThreadEdges(s, e, s', e.action.thread, c);
    }
  }

  lemma StopEdges(s: State, e: Event, s': State, c: int)
    requires Connected(s) && StopNext(s, e, s') && Obeys(NoStopOfZero, s, e.action) && c in s.core.connectors
    ensures c in s'.core.connectors
    ensures s'.core.connectors[c].status != s.core.connectors[c].status ==>
      IsEdge(s.core.connectors[c].status, e.action, s'.core.connectors[c].status)
  {
    assert ConnectorAgrees(s, c);
    assert forall t :: t in s.stops ==> StopAgrees(s, t);
  }

  /** A step that only ever writes idle statuses, and leaves the threads and
      transactions alone, moves idle connectors to idle statuses. */
  lemma IdleWritesAreEdges(s: State, s': State, c: int)
    requires Connected(s) && Connected(s') && s'.starts == s.starts
    requires c in s.core.connectors && c in s'.core.connectors
    requires s'.core.connectors[c].transactionID == s.core.connectors[c].transactionID
    requires s'.core.connectors[c].status == s.core.connectors[c].status || IsIdle(s'.core.connectors[c].status)
    ensures s'.core.connectors[c].status == s.core.connectors[c].status
      || (IsIdle(s.core.connectors[c].status) && IsIdle(s'.core.connectors[c].status))
  {
    assert ConnectorAgrees(s, c) && ConnectorAgrees(s', c);
    if s.core.connectors[c].status == Preparing && IsIdle(s'.core.connectors[c].status) {
      var t :| t in s.starts && s.starts[t].connectorID == c;
      assert StartAgrees(s', t);
    }
  }

  lemma ReserveWritesIdle(
      s: State, request: ReserveRequest, checkedAt: int, verdict: ReserveAnswer, now: int, s': State, c: int)
    requires ReserveStep(s, request, checkedAt, verdict, now, s') && c in s.core.connectors
    ensures c in s'.core.connectors && s'.starts == s.starts
    ensures s'.core.connectors[c].transactionID == s.core.connectors[c].transactionID
    ensures s'.core.connectors[c].status == s.core.connectors[c].status || IsIdle(s'.core.connectors[c].status)
  {}

  lemma CancelWritesIdle(s: State, id: int, now: int, s': State, c: int)
    requires CancelStep(s, id, now, s') && c in s.core.connectors
    ensures c in s'.core.connectors && s'.starts == s.starts
    ensures s'.core.connectors[c].transactionID == s.core.connectors[c].transactionID
    ensures s'.core.connectors[c].status == s.core.connectors[c].status || IsIdle(s'.core.connectors[c].status)
  {}

  lemma SweepWritesIdle(s: State, at: int, now: int, s': State, c: int)
    requires SweepStep(s, at, now, s') && c in s.core.connectors
    ensures c in s'.core.connectors && s'.starts == s.starts
    ensures s'.core.connectors[c].transactionID == s.core.connectors[c].transactionID
    ensures s'.core.connectors[c].status == s.core.connectors[c].status || IsIdle(s'.core.connectors[c].status)
  {}

  lemma ReservationEdges(s: State, e: Event, s': State, c: int)
    requires Connected(s) && Connected(s') && ReservationNext(s, e, s') && c in s.core.connectors
    ensures c in s'.core.connectors
    ensures s'.core.connectors[c].status != s.core.connectors[c].status ==>
      IsEdge(s.core.connectors[c].status, e.action, s'.core.connectors[c].status)
  {
    match e.action {
      case ReserveNow(request, checkedAt, verdict) => ReserveWritesIdle(s, request, checkedAt, verdict, e.now, s', c);
      case CancelReservation(id) => CancelWritesIdle(s, id, e.now, s', c);
      case Sweep(at) => SweepWritesIdle(s, at, e.now, s', c);
    }
    IdleWritesAreEdges(s, s', c);
  }

  lemma StationEdges(opts: Options, s: State, e: Event, s': State, c: int)
    requires Connected(s) && Connected(s') && StationNext(opts, s, e, s') && c in s.core.connectors
    requires Obeys(NoResetInFlight, s, e.action)
    ensures c in s'.core.connectors
    ensures s'.core.connectors[c].status != s.core.connectors[c].status ==>
      IsEdge(s.core.connectors[c].status, e.action, s'.core.connectors[c].status)
  {
    match e.action
    case ChangeAvailabilityOf(_, _) => IdleWritesAreEdges(s, s', c);
    case Reset => assert ConnectorAgrees(s, c);
    case _ =>
  }

  /** Every change of a connector's status is an edge of the graph idle to
      Preparing to Charging to Finishing to idle, with the failed start and the
      Reset as shortcuts, and is caused by the event that edge belongs to. */
  lemma StatusFollowsGraph(run: Run, i: nat, c: int)
    requires DisciplinedRun(run) && i < |run.events| && c in run.states[i].core.connectors
    ensures c in run.states[i + 1].core.connectors
    ensures ConnectorAt(run, i + 1, c).status != ConnectorAt(run, i, c).status ==>
      IsEdge(ConnectorAt(run, i, c).status, run.events[i].action, ConnectorAt(run, i + 1, c).status)
  {
    var s, e, s' := run.states[i], run.events[i], run.states[i + 1];
    AgreementInRun(run, i);
    AgreementInRun(run, i + 1);
    assert StepAt(run, i);
    assert DisciplinedAt(run, i);
    assert Obeys(NoResetInFlight, s, e.action) && Obeys(NoStopOfZero, s, e.action);
    if StartNext(s, e, s') {
      StartEdges(s, e, s', c);
    } else if StopNext(s, e, s') {
      StopEdges(s, e, s', c);
    } else if ReservationNext(s, e, s') {
      ReservationEdges(s, e, s', c);
    } else {
      StationEdges(run.opts, s, e, s', c);
    }
  }

  // ---------------------------------------------------------------------
  // Reservations that back transactions
  // ---------------------------------------------------------------------

  /** Event `i` starts a transaction with a reservation bound to a connector. */
  ghost predicate BacksBound(run: Run, i: nat) {
    && i < |run.events| <= |run.states|
    && IsOf(run.events[i], Accepts)
    && StartAt(run.states[i], run.events[i].action.thread)
    && var hold := run.states[i].starts[run.events[i].action.thread].hold;
       hold.Some? && hold.value.reservation.connectorID != 0
  }

  ghost function BackedHold(run: Run, i: nat): Hold
    requires BacksBound(run, i)
  {
    run.states[i].starts[run.events[i].action.thread].hold.value
  }

  ghost predicate BackingAt(s: State, k: nat, b: Backing) {
    k < |s.backings| && s.backings[k] == b
  }

  lemma StepKeepsBacking(opts: Options, s: State, e: Event, s': State, k: nat, b: Backing)
    requires Next(opts, s, e, s') && BackingAt(s, k, b)
    ensures BackingAt(s', k, b)
  {
    if ReservationNext(s, e, s') {
      ReservationsAreNotCounted(s, e, s');
    } else if StopNext(s, e, s') {
      assert s'.backings == s.backings;
    } else if StationNext(opts, s, e, s') {
      assert s'.backings == s.backings;
    }
  }

  lemma EventKeepsBacking(run: Run, i: nat, k: nat, b: Backing)
    requires IsRun(run) && i < |run.events| && BackingAt(run.states[i], k, b)
    ensures BackingAt(run.states[i + 1], k, b)
  {
    var s, e, s' := run.states[i], run.events[i], run.states[i + 1];
    assert StepAt(run, i);
    StepKeepsBacking(run.opts, s, e, s', k, b);
  }

  lemma {:induction false} BackingStays(run: Run, i: nat, j: nat, k: nat, b: Backing)
    requires IsRun(run) && i <= j < |run.states| && BackingAt(run.states[i], k, b)
    ensures BackingAt(run.states[j], k, b)
    decreases j - i
  {
    if i < j {
      BackingStays(run, i, j - 1, k, b);
      EventKeepsBacking(run, j - 1, k, b);
    }
  }

  /** The reservation a transaction starts with was stored at that moment,
      covers the connector, and is for the tag. */
  lemma BackedByMatchingReservation(run: Run, i: nat)
    requires DisciplinedRun(run) && BacksBound(run, i)
    ensures var s := run.states[i];
      var start := s.starts[run.events[i].action.thread];
      var hold := BackedHold(run, i);
      && start.reservationID in s.core.reservations
      && s.core.reservations[start.reservationID] == hold.reservation
      && start.reservationID in s.serials && s.serials[start.reservationID] == hold.serial
      && hold.reservation.connectorID == start.connectorID
      && (start.idTag == hold.reservation.idTag || start.idTag == hold.reservation.parentIDTag)
      && start.reservationID !in run.states[i + 1].core.reservations
  {
    AgreementInRun(run, i);
    var s, e, s' := run.states[i], run.events[i], run.states[i + 1];
    assert HoldAgrees(s, e.action.thread);
    assert StepAt(run, i);
    assert StartAcceptedStep(s, e.action.thread, e.action.answer.transactionID, e.now, s');
  }

  /** Event `i` stores a reservation. */
  ghost predicate Grants(run: Run, i: nat) {
    && i < |run.events| < |run.states|
    && run.events[i].action.ReserveNow? && run.events[i].action.verdict == ReserveAccepted
  }

  lemma GrantTakesSerial(s: State, request: ReserveRequest, checkedAt: int, verdict: ReserveAnswer, now: int, s': State)
    requires ReserveStep(s, request, checkedAt, verdict, now, s')
    ensures s.nextSerial <= s'.nextSerial
    ensures verdict == ReserveAccepted ==>
      && s'.nextSerial == s.nextSerial + 1
      && request.reservationId in s'.serials && s'.serials[request.reservationId] == s.nextSerial
  {}

  lemma OthersKeepSerialCounter(s: State, e: Event, s': State)
    requires ReservationNext(s, e, s') && !e.action.ReserveNow?
    ensures s'.nextSerial == s.nextSerial
  {}

  lemma StepSerialCounter(opts: Options, s: State, e: Event, s': State)
    requires Next(opts, s, e, s')
    ensures s.nextSerial <= s'.nextSerial
    ensures e.action.ReserveNow? && e.action.verdict == ReserveAccepted ==>
      && s'.nextSerial == s.nextSerial + 1
      && e.action.request.reservationId in s'.serials
      && s'.serials[e.action.request.reservationId] == s.nextSerial
  {
    if e.action.ReserveNow? {
      GrantTakesSerial(s, e.action.request, e.action.checkedAt, e.action.verdict, e.now, s');
    } else if ReservationNext(s, e, s') {
      OthersKeepSerialCounter(s, e, s');
    } else if StartNext(s, e, s') {
      assert s'.nextSerial == s.nextSerial;
    } else if StopNext(s, e, s') {
      assert s'.nextSerial == s.nextSerial;
    } else {
      assert s'.nextSerial == s.nextSerial;
    }
  }

  lemma EventSerialCounter(run: Run, i: nat)
    requires IsRun(run) && i < |run.events|
    ensures run.states[i].nextSerial <= run.states[i + 1].nextSerial
    ensures Grants(run, i) ==>
      var r := run.events[i].action.request.reservationId;
      && run.states[i + 1].nextSerial == run.states[i].nextSerial + 1
      && r in run.states[i + 1].serials && run.states[i + 1].serials[r] == run.states[i].nextSerial
  {
    var s, e, s' := run.states[i], run.events[i], run.states[i + 1];
    assert StepAt(run, i);
    StepSerialCounter(run.opts, s, e, s');
  }

  lemma {:induction false} SerialCounterGrows(run: Run, i: nat, j: nat)
    requires IsRun(run) && i <= j < |run.states|
    ensures run.states[i].nextSerial <= run.states[j].nextSerial
    decreases j - i
  {
    if i < j {
      SerialCounterGrows(run, i, j - 1);
      EventSerialCounter(run, j - 1);
    }
  }

  /** A serial stands for one accepted ReserveNow. */
  lemma SerialsTellReservationsApart(run: Run, i: nat, j: nat)
    requires IsRun(run) && i < j && Grants(run, i) && Grants(run, j)
    ensures var p, q := run.events[i].action.request.reservationId, run.events[j].action.request.reservationId;
      p in run.states[i + 1].serials && q in run.states[j + 1].serials
      && run.states[i + 1].serials[p] != run.states[j + 1].serials[q]
  {
    EventSerialCounter(run, i);
    EventSerialCounter(run, j);
    SerialCounterGrows(run, i + 1, j);
  }

  /** No reservation bound to a connector backs two transactions. */
  lemma BacksOnce(run: Run, i: nat, j: nat)
    requires DisciplinedRun(run) && i < j && BacksBound(run, i) && BacksBound(run, j)
    ensures BackedHold(run, i).serial != BackedHold(run, j).serial
  {
    var s, e, s' := run.states[i], run.events[i], run.states[i + 1];
    assert StepAt(run, i);
    assert StartAcceptedStep(s, e.action.thread, e.action.answer.transactionID, e.now, s');
    var b := Backing(BackedHold(run, i), e.action.answer.transactionID);
    assert BackingAt(s', |s.backings|, b);
    BackingStays(run, i + 1, j, |s.backings|, b);
    AgreementInRun(run, j);
    assert BackingAgrees(run.states[j], run.states[j].backings[|s.backings|]);
    BackedByMatchingReservation(run, j);
  }

  /** A failed or rejected start hands its connector's reservation back, and
      the connector shows Reserved while that is live. */
  lemma FailedStartHandsBack(run: Run, i: nat)
    requires DisciplinedRun(run) && i < |run.events| && Fails(run.events[i])
    requires StartAt(run.states[i], run.events[i].action.thread)
    requires var hold := run.states[i].starts[run.events[i].action.thread].hold;
      hold.Some? && hold.value.reservation.connectorID != 0
    ensures var start := run.states[i].starts[run.events[i].action.thread];
      var s' := run.states[i + 1];
      && start.reservationID in s'.core.reservations
      && s'.core.reservations[start.reservationID] == start.hold.value.reservation
      && start.connectorID in s'.core.connectors
      && (Live(start.hold.value.reservation, run.events[i].now) ==>
            s'.core.connectors[start.connectorID].status == Reserved)
      && run.events[i].action.thread !in s'.starts
  {
    AgreementInRun(run, i);
    var s, e, s' := run.states[i], run.events[i], run.states[i + 1];
    var t := e.action.thread;
    assert StepAt(run, i);
    assert StartAgrees(s, t) && HoldAgrees(s, t);
    assert s' == FailedStart(s, t, e.now);
    if Live(s.starts[t].hold.value.reservation, e.now) {
      assert LiveBound(s'.core.reservations, s.starts[t].connectorID, e.now);
    }
  }
}
