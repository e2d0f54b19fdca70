/** What holds in every run, whatever the central system sends and however the
    sections interleave: the shape of the store, and the ledger of meter
    readings and transaction identifiers. */
module EveryRun {
  import opened Station
  import opened Access
  import opened Shapes
  import opened Protocol

  /** The register after `ticks` meter ticks. */
  function Register(opts: Options, ticks: nat): int {
    opts.meterStart + ticks * opts.meterStep
  }

  ghost predicate MetersAgree(opts: Options, s: State) {
    forall c :: c in s.core.connectors ==> s.core.connectors[c].meter == Register(opts, s.ticks)
  }

  /** A start thread names a connector that exists, and read its register. */
  ghost predicate StartGrounded(opts: Options, s: State, t: nat)
    requires t in s.starts
  {
    && StartAt(s, t)
    && (s.starts[t].pc.StartSent? ==>
          && s.starts[t].pc.readTick <= s.ticks
          && s.starts[t].pc.meterStart == Register(opts, s.starts[t].pc.readTick))
  }

  ghost predicate ConfirmedRead(opts: Options, s: State, id: int)
    requires id in s.confirmed
  {
    && id > 0
    && s.confirmed[id].connectorID in s.core.connectors
    && s.confirmed[id].readTick <= s.ticks
    && s.confirmed[id].meterStart == Register(opts, s.confirmed[id].readTick)
  }

  /** A stop for a positive identifier names a transaction confirmed on its own
      connector, and read the register no earlier than that transaction did. */
  ghost predicate StopGrounded(opts: Options, s: State, t: nat)
    requires t in s.stops
  {
    var stop := s.stops[t];
    && StopAt(s, t)
    && stop.transactionID >= 0
    && (stop.transactionID > 0 ==>
          stop.transactionID in s.confirmed && s.confirmed[stop.transactionID].connectorID == stop.connectorID)
    && (stop.pc.StopSent? ==>
          && stop.pc.readTick <= s.ticks
          && stop.pc.meterStop == Register(opts, stop.pc.readTick)
          && (stop.transactionID > 0 ==> s.confirmed[stop.transactionID].readTick <= stop.pc.readTick))
  }

  ghost predicate OpenGrounded(s: State, c: int)
    requires c in s.core.connectors
  {
    var id := s.core.connectors[c].transactionID;
    id > 0 ==> id in s.confirmed && s.confirmed[id].connectorID == c
  }

  ghost predicate Ledger(opts: Options, s: State) {
    && MetersAgree(opts, s)
    && (forall t :: t in s.starts ==> StartGrounded(opts, s, t))
    && (forall id :: id in s.confirmed ==> ConfirmedRead(opts, s, id))
    && (forall t :: t in s.stops ==> StopGrounded(opts, s, t))
    && (forall c :: c in s.core.connectors ==> OpenGrounded(s, c))
  }

  ghost predicate SerialsAgree(s: State) {
    && s.serials.Keys == s.core.reservations.Keys
    && (forall r :: r in s.serials ==> s.serials[r] < s.nextSerial)
    && (forall q, r :: q in s.serials && r in s.serials && q != r ==> s.serials[q] != s.serials[r])
  }

  ghost predicate Always(opts: Options, s: State) {
    && Shape(opts.connectors, s.core)
    && SerialsAgree(s)
    && Ledger(opts, s)
  }

  // ---------------------------------------------------------------------
  // Shape
  // ---------------------------------------------------------------------

  lemma InitialStateIsFine(opts: Options, start: int)
    ensures Always(opts, Init(opts, start))
  {}

  lemma ReserveKeepsShape(
      opts: Options, s: State, request: ReserveRequest, checkedAt: int, verdict: ReserveAnswer, now: int, s': State)
    requires Shape(opts.connectors, s.core) && ReserveStep(s, request, checkedAt, verdict, now, s')
    ensures Shape(opts.connectors, s'.core) && s'.core.connectors.Keys == s.core.connectors.Keys
  {
    if FutureExpiry(request, checkedAt) {
      var base := Released(s.core, request.reservationId, now);
      NarrowingKeepsShape(opts.connectors, s.core, base);
      if verdict == ReserveAccepted {
        ReservingKeepsShape(opts.connectors, base, request, now);
      }
    }
  }

  lemma CancelKeepsShape(n: nat, s: State, id: int, now: int, s': State)
    requires Shape(n, s.core) && CancelStep(s, id, now, s')
    ensures Shape(n, s'.core) && s'.core.connectors.Keys == s.core.connectors.Keys
  {
    NarrowingKeepsShape(n, s.core, s'.core);
  }

  lemma SweepKeepsShape(n: nat, s: State, at: int, now: int, s': State)
    requires Shape(n, s.core) && SweepStep(s, at, now, s')
    ensures Shape(n, s'.core) && s'.core.connectors.Keys == s.core.connectors.Keys
  {
    NarrowingKeepsShape(n, s.core, s'.core);
  }

  lemma AnswerKeepsShape(n: nat, s: State, t: nat, answer: StartAnswer, now: int, s': State)
    requires Shape(n, s.core) && StartAnswerStep(s, t, answer, now, s')
    ensures Shape(n, s'.core) && s'.core.connectors.Keys == s.core.connectors.Keys
  {
    NarrowingKeepsShape(n, s.core, s'.core);
  }

  lemma FailureKeepsShape(n: nat, s: State, t: nat, now: int)
    requires Shape(n, s.core) && StartAt(s, t)
    ensures Shape(n, FailedStart(s, t, now).core)
  {
    NarrowingKeepsShape(n, s.core, FailedStart(s, t, now).core);
  }

  lemma StartShape(n: nat, s: State, e: Event, s': State)
    requires Shape(n, s.core) && StartNext(s, e, s')
    ensures Shape(n, s'.core) && s'.core.connectors.Keys == s.core.connectors.Keys
  {
    if e.action.StartAnswered? {
      AnswerKeepsShape(n, s, e.action.thread, e.action.answer, e.now, s');
    } else if e.action.AuthorizeAnswered? {
      FailureKeepsShape(n, s, e.action.thread, e.now);
    } else if e.action.RemoteStart? {
      NarrowingKeepsShape(n, s.core, s'.core);
    }
  }

  lemma StopShape(n: nat, s: State, e: Event, s': State)
    requires Shape(n, s.core) && StopNext(s, e, s')
    ensures Shape(n, s'.core) && s'.core.connectors.Keys == s.core.connectors.Keys
  {
    NarrowingKeepsShape(n, s.core, s'.core);
  }

  lemma StationShape(opts: Options, s: State, e: Event, s': State)
    requires Shape(opts.connectors, s.core) && StationNext(opts, s, e, s')
    ensures Shape(opts.connectors, s'.core) && s'.core.connectors.Keys == s.core.connectors.Keys
  {
    if e.action.ChangeAvailabilityOf? {
      AvailabilityKeepsShape(opts.connectors, s.core, e.action.connectorId, e.action.kind, e.now);
    } else {
      NarrowingKeepsShape(opts.connectors, s.core, s'.core);
    }
  }

  lemma StepShape(opts: Options, s: State, e: Event, s': State)
    requires Shape(opts.connectors, s.core) && Next(opts, s, e, s')
    ensures Shape(opts.connectors, s'.core) && s'.core.connectors.Keys == s.core.connectors.Keys
  {
    if StartNext(s, e, s') {
      StartShape(opts.connectors, s, e, s');
    } else if StopNext(s, e, s') {
      StopShape(opts.connectors, s, e, s');
    } else if StationNext(opts, s, e, s') {
      StationShape(opts, s, e, s');
    } else {
      match e.action
      case ReserveNow(request, checkedAt, verdict) => ReserveKeepsShape(opts, s, request, checkedAt, verdict, e.now, s');
      case CancelReservation(id) => CancelKeepsShape(opts.connectors, s, id, e.now, s');
      case Sweep(at) => SweepKeepsShape(opts.connectors, s, at, e.now, s');
    }
  }

  // ---------------------------------------------------------------------
  // Ledger
  // ---------------------------------------------------------------------

  /** Nothing the ledger speaks about is added; transactions may only close. */
  ghost predicate Quiet(s: State, s': State) {
    && s'.ticks == s.ticks && s'.confirmed == s.confirmed
    && (forall t :: t in s'.starts ==> t in s.starts && s'.starts[t] == s.starts[t])
    && (forall t :: t in s'.stops ==> t in s.stops && s'.stops[t] == s.stops[t])
    && s'.core.connectors.Keys == s.core.connectors.Keys
    && (forall c :: c in s.core.connectors ==>
          && s'.core.connectors[c].meter == s.core.connectors[c].meter
          && (s'.core.connectors[c].transactionID == s.core.connectors[c].transactionID
              || s'.core.connectors[c].transactionID == 0))
  }

  lemma QuietKeepsLedger(opts: Options, s: State, s': State)
    requires Ledger(opts, s) && Quiet(s, s')
    ensures Ledger(opts, s')
  {}

  lemma FailureIsQuiet(s: State, t: nat, now: int)
    requires StartAt(s, t)
    ensures Quiet(s, FailedStart(s, t, now))
  {}

  lemma ReserveIsQuiet(s: State, request: ReserveRequest, checkedAt: int, verdict: ReserveAnswer, now: int, s': State)
    requires ReserveStep(s, request, checkedAt, verdict, now, s')
    ensures Quiet(s, s')
  {}

  lemma SweepIsQuiet(s: State, at: int, now: int, s': State)
    requires SweepStep(s, at, now, s')
    ensures Quiet(s, s')
  {}

  lemma ReservationsAreQuiet(s: State, e: Event, s': State)
    requires ReservationNext(s, e, s')
    ensures Quiet(s, s')
  {
    match e.action
    case ReserveNow(request, checkedAt, verdict) => ReserveIsQuiet(s, request, checkedAt, verdict, e.now, s');
    case Sweep(at) => SweepIsQuiet(s, at, e.now, s');
    case CancelReservation(_) =>
  }

  lemma BeginKeepsLedger(opts: Options, s: State, t: nat, tag: string, c: int, r: int, now: int, s': State)
    requires Ledger(opts, s) && StartBegunStep(s, t, tag, c, r, now, s')
    ensures Ledger(opts, s')
  {}

  lemma StartMovesKeepLedger(opts: Options, s: State, t: nat, now: int, s': State)
    requires Ledger(opts, s)
    requires StartConfigurationStep(s, t, now, s') || AuthorizeStep(s, t, true, now, s') || StartMeterStep(s, t, now, s')
    ensures Ledger(opts, s')
  {}

  lemma AcceptKeepsLedger(opts: Options, s: State, t: nat, id: int, now: int, s': State)
    requires Ledger(opts, s) && StartAcceptedStep(s, t, id, now, s')
    ensures Ledger(opts, s')
  {}

  lemma StartLedger(opts: Options, s: State, e: Event, s': State)
    requires Ledger(opts, s) && StartNext(s, e, s')
    ensures Ledger(opts, s')
  {
    match e.action
    case RemoteStart(t, _, tag, choice) =>
      if choice.Chosen? {
        BeginKeepsLedger(opts, s, t, tag, choice.connectorID, choice.reservationID, e.now, s');
      } else {
        QuietKeepsLedger(opts, s, s');
      }
    case StartReadsConfiguration(t) => StartMovesKeepLedger(opts, s, t, e.now, s');
    case StartReadsMeter(t) => StartMovesKeepLedger(opts, s, t, e.now, s');
    case AuthorizeAnswered(t, accepted) =>
      if accepted {
        StartMovesKeepLedger(opts, s, t, e.now, s');
      } else {
        FailureIsQuiet(s, t, e.now);
        QuietKeepsLedger(opts, s, s');
      }
    case StartAnswered(t, answer) =>
      if answer.StartAccepted? {
        AcceptKeepsLedger(opts, s, t, answer.transactionID, e.now, s');
      } else {
        FailureIsQuiet(s, t, e.now);
        QuietKeepsLedger(opts, s, s');
      }
  }

  lemma StopBeginKeepsLedger(opts: Options, s: State, t: nat, id: int, c: int, now: int, s': State)
    requires Ledger(opts, s) && id >= 0 && StopBegunStep(s, t, id, c, now, s')
    ensures Ledger(opts, s')
  {}

  lemma StopReadKeepsLedger(opts: Options, s: State, t: nat, now: int, s': State)
    requires Ledger(opts, s) && StopMeterStep(s, t, now, s')
    ensures Ledger(opts, s')
  {}

  lemma StopLedger(opts: Options, s: State, e: Event, s': State)
    requires Ledger(opts, s) && Shape(opts.connectors, s.core) && StopNext(s, e, s')
    ensures Ledger(opts, s')
  {
    match e.action
    case RemoteStop(t, id, found) =>
      if found.Some? {
        StopBeginKeepsLedger(opts, s, t, id, found.value, e.now, s');
      } else {
        QuietKeepsLedger(opts, s, s');
      }
    case StopReadsMeter(t) => StopReadKeepsLedger(opts, s, t, e.now, s');
    case StopAnswered(_, _) => QuietKeepsLedger(opts, s, s');
  }

  lemma TickKeepsLedger(opts: Options, s: State, now: int, s': State)
    requires Ledger(opts, s) && TickStep(opts, s, now, s')
    ensures Ledger(opts, s')
  {
    assert Register(opts, s.ticks + 1) == Register(opts, s.ticks) + opts.meterStep;
  }

  lemma AvailabilityIsQuiet(s: State, id: int, kind: Availability, now: int, s': State)
    requires AvailabilityStep(s, id, kind, now, s')
    ensures Quiet(s, s')
  {}

  lemma StationLedger(opts: Options, s: State, e: Event, s': State)
    requires Ledger(opts, s) && Shape(opts.connectors, s.core) && StationNext(opts, s, e, s')
    ensures Ledger(opts, s')
  {
    match e.action
    case Tick => TickKeepsLedger(opts, s, e.now, s');
    case ChangeAvailabilityOf(id, kind) =>
      AvailabilityIsQuiet(s, id, kind, e.now, s');
      QuietKeepsLedger(opts, s, s');
    case _ => QuietKeepsLedger(opts, s, s');
  }

  lemma StepLedger(opts: Options, s: State, e: Event, s': State)
    requires Ledger(opts, s) && Shape(opts.connectors, s.core) && Next(opts, s, e, s')
    ensures Ledger(opts, s')
  {
    if StartNext(s, e, s') {
      StartLedger(opts, s, e, s');
    } else if StopNext(s, e, s') {
      StopLedger(opts, s, e, s');
    } else if ReservationNext(s, e, s') {
      ReservationsAreQuiet(s, e, s');
      QuietKeepsLedger(opts, s, s');
    } else {
      StationLedger(opts, s, e, s');
    }
  }

  // ---------------------------------------------------------------------
  // Serials
  // ---------------------------------------------------------------------

  lemma ReserveKeepsSerials(s: State, request: ReserveRequest, checkedAt: int, verdict: ReserveAnswer, now: int, s': State)
    requires SerialsAgree(s) && ReserveStep(s, request, checkedAt, verdict, now, s')
    ensures SerialsAgree(s')
  {}

  lemma OtherReservationsKeepSerials(s: State, e: Event, s': State)
    requires SerialsAgree(s) && ReservationNext(s, e, s') && !e.action.ReserveNow?
    ensures SerialsAgree(s')
  {}

  lemma AcceptKeepsSerials(s: State, t: nat, id: int, now: int, s': State)
    requires SerialsAgree(s) && StartAcceptedStep(s, t, id, now, s')
    ensures SerialsAgree(s')
  {}

  lemma StartKeepsSerials(s: State, e: Event, s': State)
    requires SerialsAgree(s) && StartNext(s, e, s')
    ensures SerialsAgree(s')
  {
    if e.action.StartAnswered? && e.action.answer.StartAccepted? {
      AcceptKeepsSerials(s, e.action.thread, e.action.answer.transactionID, e.now, s');
    } else {
      assert s'.serials == s.serials && s'.core.reservations == s.core.reservations;
    }
  }

  lemma StationKeepsSerials(opts: Options, s: State, e: Event, s': State)
    requires SerialsAgree(s) && StationNext(opts, s, e, s')
    ensures SerialsAgree(s')
  {}

  lemma StepSerials(opts: Options, s: State, e: Event, s': State)
    requires SerialsAgree(s) && Next(opts, s, e, s')
    ensures SerialsAgree(s')
  {
    if e.action.ReserveNow? {
      ReserveKeepsSerials(s, e.action.request, e.action.checkedAt, e.action.verdict, e.now, s');
    } else if ReservationNext(s, e, s') {
      OtherReservationsKeepSerials(s, e, s');
    } else if StartNext(s, e, s') {
      StartKeepsSerials(s, e, s');
    } else if StationNext(opts, s, e, s') {
      StationKeepsSerials(opts, s, e, s');
    }
  }

  lemma StepKeepsAlways(opts: Options, s: State, e: Event, s': State)
    requires Always(opts, s) && Next(opts, s, e, s')
    ensures Always(opts, s')
  {
    StepShape(opts, s, e, s');
    StepLedger(opts, s, e, s');
    StepSerials(opts, s, e, s');
  }

  /** The shape and the ledger hold in every state of every run. */
  lemma {:induction false} AlwaysInRun(run: Run, i: nat)
    requires IsRun(run) && i < |run.states|
    ensures Always(run.opts, run.states[i])
  {
    if i == 0 {
      InitialStateIsFine(run.opts, run.states[0].now);
    } else {
      AlwaysInRun(run, i - 1);
      assert StepAt(run, i - 1);
      StepKeepsAlways(run.opts, run.states[i - 1], run.events[i - 1], run.states[i]);
    }
  }
}
