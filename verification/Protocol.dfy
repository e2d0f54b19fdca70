/** The charge point as a state machine.  Every event is one locked section of
    a request handler, of the expiry sweep or meter tick, or of a remote start
    or stop goroutine; between events anything else may run.  Thread locals
    and the history a theorem needs are kept beside the locked state. */
module Protocol {
  import opened Station
  import opened Access

  // ---------------------------------------------------------------------
  // State
  // ---------------------------------------------------------------------

  /** Where a remote start is.  `readTick` counts the meter ticks before its
      meter read. */
  datatype StartPC = Begun | Authorizing | Cleared | StartSent(meterStart: int, readTick: nat)

  /** The reservation a start was granted with.  `serial` tells successive
      reservations with the same identifier apart. */
  datatype Hold = Hold(reservation: Reservation, serial: nat)

  datatype StartThread = StartThread(
    connectorID: int, idTag: string, reservationID: int, hold: Option<Hold>, pc: StartPC)

  datatype StopPC = StopBegun | StopSent(meterStop: int, idTag: string, readTick: nat)

  datatype StopThread = StopThread(connectorID: int, transactionID: int, pc: StopPC)

  /** A transaction the central system accepted. */
  datatype Confirmed = Confirmed(connectorID: int, idTag: string, meterStart: int, readTick: nat)

  /** A transaction whose StartTransaction named a reservation. */
  datatype Backing = Backing(hold: Hold, transactionID: int)

  datatype State = State(
    core: Core,
    starts: map<nat, StartThread>,
    stops: map<nat, StopThread>,
    now: int,
    ticks: nat,
    confirmed: map<int, Confirmed>,
    acceptedStarts: nat,
    confirmedStops: nat,
    clearedByReset: nat,
    serials: map<int, nat>,
    nextSerial: nat,
    backings: seq<Backing>)

  ghost function Init(opts: Options, start: int): State {
    State(InitialCore(opts), map[], map[], start, 0, map[], 0, 0, 0, map[], 0, [])
  }

  // ---------------------------------------------------------------------
  // Events
  // ---------------------------------------------------------------------

  datatype StartAnswer = StartFailed | StartRejected | StartAccepted(transactionID: int)

  datatype Action =
    | ChangeAvailabilityOf(connectorId: int, kind: Availability)
    | SetAuthorizeRemote(value: bool)
    | RemoteStart(thread: nat, requested: Option<int>, idTag: string, choice: Choice)
    | StartReadsConfiguration(thread: nat)
    | AuthorizeAnswered(thread: nat, accepted: bool)
    | StartReadsMeter(thread: nat)
    | StartAnswered(thread: nat, answer: StartAnswer)
    | RemoteStop(thread: nat, transactionId: int, found: Option<int>)
    | StopReadsMeter(thread: nat)
    | StopAnswered(thread: nat, confirmed: bool)
    | Reset
    | ReserveNow(request: ReserveRequest, checkedAt: int, verdict: ReserveAnswer)
    | CancelReservation(reservationId: int)
    | Sweep(at: int)
    | Tick
    | TriggeredSample(connectorId: int)

  /** An action, and the clock while it holds the lock. */
  datatype Event = Event(action: Action, now: int)

  // ---------------------------------------------------------------------
  // One step per locked section: when it can happen, and what it leaves
  // ---------------------------------------------------------------------

  /** Install a new store; serials follow the reservations that are left. */
  ghost function WithCore(s: State, core: Core): State {
    s.(core := core, serials := map r | r in s.serials && r in core.reservations :: s.serials[r])
  }

  ghost predicate AvailabilityStep(s: State, id: int, kind: Availability, now: int, s': State) {
    s' == WithCore(s, ChangeAvailability(s.core, id, kind, now)).(now := now)
  }

  ghost predicate ConfigurationStep(s: State, value: bool, now: int, s': State) {
    s' == s.(core := s.core.(authorizeRemote := value), now := now)
  }

  ghost function HoldFor(s: State, reservationID: int): Option<Hold> {
    if reservationID > 0 && reservationID in s.core.reservations && reservationID in s.serials
    then Some(Hold(s.core.reservations[reservationID], s.serials[reservationID]))
    else None
  }

  ghost predicate RemoteStartStep(
      s: State, t: nat, requested: Option<int>, tag: string, choice: Choice, now: int, s': State) {
    && t !in s.starts
    && MayChoose(s.core, now, requested, tag, choice)
    && match choice
       case NoConnector => s' == s.(now := now)
       case Chosen(c, r) => StartBegunStep(s, t, tag, c, r, now, s')
  }

  ghost predicate StartBegunStep(s: State, t: nat, tag: string, c: int, r: int, now: int, s': State) {
    && t !in s.starts && c in s.core.connectors
    && s' == s.(core := BeginStart(s.core, c, tag),
                starts := s.starts[t := StartThread(c, tag, r, HoldFor(s, r), Begun)],
                now := now)
  }

  /** Start thread `t` is at a point where the lock protects connector lookups. */
  predicate StartAt(s: State, t: nat) {
    t in s.starts && s.starts[t].connectorID in s.core.connectors
  }

  predicate StopAt(s: State, t: nat) {
    t in s.stops && s.stops[t].connectorID in s.core.connectors
  }

  ghost predicate StartConfigurationStep(s: State, t: nat, now: int, s': State) {
    && StartAt(s, t) && s.starts[t].pc.Begun?
    && s' == s.(starts := s.starts[t := s.starts[t].(pc := if s.core.authorizeRemote then Authorizing else Cleared)],
                now := now)
  }

  /** The failed start gives the connector back and ends. */
  ghost function FailedStart(s: State, t: nat, now: int): State
    requires StartAt(s, t)
  {
    s.(core := RestoreAfterFailedStart(s.core, s.starts[t].connectorID, now), starts := s.starts - {t}, now := now)
  }

  ghost predicate AuthorizeStep(s: State, t: nat, accepted: bool, now: int, s': State) {
    && StartAt(s, t) && s.starts[t].pc.Authorizing?
    && s' == if accepted then s.(starts := s.starts[t := s.starts[t].(pc := Cleared)], now := now)
             else FailedStart(s, t, now)
  }

  ghost predicate StartMeterStep(s: State, t: nat, now: int, s': State) {
    && StartAt(s, t) && s.starts[t].pc.Cleared?
    && s' == s.(starts := s.starts[t := s.starts[t].(
                  pc := StartSent(s.core.connectors[s.starts[t].connectorID].meter, s.ticks))],
                now := now)
  }

  ghost predicate StartAnswerStep(s: State, t: nat, answer: StartAnswer, now: int, s': State) {
    && StartAt(s, t) && s.starts[t].pc.StartSent?
    && match answer
       case StartAccepted(id) => StartAcceptedStep(s, t, id, now, s')
       case _ => s' == FailedStart(s, t, now)
  }

  /** The central system issues fresh positive transaction identifiers. */
  ghost predicate StartAcceptedStep(s: State, t: nat, id: int, now: int, s': State) {
    && StartAt(s, t) && s.starts[t].pc.StartSent?
    && id > 0 && id !in s.confirmed
    && var start := s.starts[t];
       s' == WithCore(s, AcceptStart(s.core, start.connectorID, id, start.reservationID)).(
         starts := s.starts - {t},
         confirmed := s.confirmed[id :=
           Confirmed(start.connectorID, start.idTag, start.pc.meterStart, start.pc.readTick)],
         acceptedStarts := s.acceptedStarts + 1,
         backings := if start.hold.Some? then s.backings + [Backing(start.hold.value, id)] else s.backings,
         now := now)
  }

  ghost predicate RemoteStopStep(s: State, t: nat, id: int, found: Option<int>, now: int, s': State) {
    && t !in s.stops
    && match found
       case None =>
         && (forall c :: c in s.core.connectors ==> s.core.connectors[c].transactionID != id)
         && s' == s.(now := now)
       case Some(c) => StopBegunStep(s, t, id, c, now, s')
  }

  ghost predicate StopBegunStep(s: State, t: nat, id: int, c: int, now: int, s': State) {
    && t !in s.stops && c in s.core.connectors && s.core.connectors[c].transactionID == id
    && s' == s.(core := WithStatus(s.core, c, Finishing),
                stops := s.stops[t := StopThread(c, id, StopBegun)],
                now := now)
  }

  ghost predicate StopMeterStep(s: State, t: nat, now: int, s': State) {
    && StopAt(s, t) && s.stops[t].pc.StopBegun?
    && var connector := s.core.connectors[s.stops[t].connectorID];
       s' == s.(stops := s.stops[t := s.stops[t].(pc := StopSent(connector.meter, connector.idTag, s.ticks))],
                now := now)
  }

  ghost predicate StopAnswerStep(s: State, t: nat, confirmed: bool, now: int, s': State) {
    && StopAt(s, t) && s.stops[t].pc.StopSent?
    && s' == if confirmed
             then s.(core := ConfirmStop(s.core, s.stops[t].connectorID, now),
                     stops := s.stops - {t}, confirmedStops := s.confirmedStops + 1, now := now)
             else s.(stops := s.stops - {t}, now := now)
  }

  function OpenConnectors(core: Core): set<int> {
    set c | c in core.connectors && core.connectors[c].transactionID > 0
  }

  ghost predicate ResetStep(s: State, now: int, s': State) {
    s' == s.(core := ResetAll(s.core, now),
             clearedByReset := s.clearedByReset + |OpenConnectors(s.core)|,
             now := now)
  }

  /** A request that is already expired when it arrives changes nothing; any
      other first drops the reservation that had its identifier. */
  ghost predicate ReserveStep(
      s: State, request: ReserveRequest, checkedAt: int, verdict: ReserveAnswer, now: int, s': State) {
    && checkedAt <= now
    && if !FutureExpiry(request, checkedAt)
       then verdict == ReserveRejected && s' == s.(now := now)
       else
         && StoreShape(s.core)
         && var base := Released(s.core, request.reservationId, now);
            && ReserveMayAnswer(base, now, request, verdict)
            && if verdict == ReserveAccepted
               then GrantedStep(s, base, request, now, s')
               else s' == WithCore(s, base).(now := now)
  }

  ghost predicate GrantedStep(s: State, base: Core, request: ReserveRequest, now: int, s': State)
    requires request.expiry.Some?
  {
    && (request.connectorId > 0 ==> request.connectorId in base.connectors)
    && s' == WithCore(s, base).(
         core := Stored(base, request),
         serials := WithCore(s, base).serials[request.reservationId := s.nextSerial],
         nextSerial := s.nextSerial + 1,
         now := now)
  }

  ghost predicate CancelStep(s: State, id: int, now: int, s': State) {
    StoreShape(s.core) && s' == WithCore(s, Released(s.core, id, now)).(now := now)
  }

  ghost predicate SweepStep(s: State, at: int, now: int, s': State) {
    at <= now && s' == WithCore(s, Swept(s.core, at, now)).(now := now)
  }

  ghost predicate TickStep(opts: Options, s: State, now: int, s': State) {
    s' == s.(core := MeterTick(s.core, opts.meterStep), ticks := s.ticks + 1, now := now)
  }

  /** A remote start request, or its goroutine. */
  ghost predicate StartNext(s: State, e: Event, s': State) {
    match e.action
    case RemoteStart(t, requested, tag, choice) => RemoteStartStep(s, t, requested, tag, choice, e.now, s')
    case StartReadsConfiguration(t) => StartConfigurationStep(s, t, e.now, s')
    case AuthorizeAnswered(t, accepted) => AuthorizeStep(s, t, accepted, e.now, s')
    case StartReadsMeter(t) => StartMeterStep(s, t, e.now, s')
    case StartAnswered(t, answer) => StartAnswerStep(s, t, answer, e.now, s')
    case _ => false
  }

  /** A remote stop request, or its goroutine. */
  ghost predicate StopNext(s: State, e: Event, s': State) {
    match e.action
    case RemoteStop(t, id, found) => RemoteStopStep(s, t, id, found, e.now, s')
    case StopReadsMeter(t) => StopMeterStep(s, t, e.now, s')
    case StopAnswered(t, confirmed) => StopAnswerStep(s, t, confirmed, e.now, s')
    case _ => false
  }

  ghost predicate ReservationNext(s: State, e: Event, s': State) {
    match e.action
    case ReserveNow(request, checkedAt, verdict) => ReserveStep(s, request, checkedAt, verdict, e.now, s')
    case CancelReservation(id) => CancelStep(s, id, e.now, s')
    case Sweep(at) => SweepStep(s, at, e.now, s')
    case _ => false
  }

  ghost predicate StationNext(opts: Options, s: State, e: Event, s': State) {
    match e.action
    case ChangeAvailabilityOf(id, kind) => AvailabilityStep(s, id, kind, e.now, s')
    case SetAuthorizeRemote(value) => ConfigurationStep(s, value, e.now, s')
    case Reset => ResetStep(s, e.now, s')
    case Tick => TickStep(opts, s, e.now, s')
    case TriggeredSample(_) => s' == s.(now := e.now)
    case _ => false
  }

  /** The step an event takes.  The clock never goes back. */
  ghost predicate Next(opts: Options, s: State, e: Event, s': State) {
    && s.now <= e.now
    && (StartNext(s, e, s') || StopNext(s, e, s') || ReservationNext(s, e, s') || StationNext(opts, s, e, s'))
  }

  // ---------------------------------------------------------------------
  // Runs
  // ---------------------------------------------------------------------

  datatype Run = Run(opts: Options, states: seq<State>, events: seq<Event>)

  /** Event `i` of the run is a step. */
  ghost predicate StepAt(run: Run, i: int)
    requires 0 <= i < |run.events| && |run.states| == |run.events| + 1
  {
    Next(run.opts, run.states[i], run.events[i], run.states[i + 1])
  }

  /** `run` starts in the initial state and takes steps only. */
  ghost predicate IsRun(run: Run) {
    && |run.states| == |run.events| + 1
    && run.states[0] == Init(run.opts, run.states[0].now)
    && forall i :: 0 <= i < |run.events| ==> StepAt(run, i)
  }
}
