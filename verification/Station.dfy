/** What the charge point holds under its lock, and what each locked section
    does to it, as functions on values.  `Simulator` runs the same sections
    in place; `Protocol` interleaves them. */
module Station {

  datatype Option<+T> = None | Some(value: T)

  datatype Availability = Operative | Inoperative

  /** The statuses the code reads or writes; `Faulted` is only ever read. */
  datatype Status = Available | Preparing | Charging | Finishing | Reserved | Unavailable | Faulted

  datatype Connector = Connector(
    availability: Availability,
    status: Status,
    transactionID: int,
    idTag: string,
    meter: int)

  datatype Reservation = Reservation(connectorID: int, idTag: string, parentIDTag: string, expiry: int)

  datatype Options = Options(connectors: nat, meterStart: nat, meterStep: nat)

  datatype Core = Core(
    connectors: map<int, Connector>,
    reservations: map<int, Reservation>,
    authorizeRemote: bool)

  predicate IsIdle(status: Status) {
    status == Available || status == Reserved || status == Unavailable
  }

  /** A reservation is live strictly before its expiry. */
  predicate Live(r: Reservation, now: int) {
    r.expiry > now
  }

  ghost predicate LiveBound(reservations: map<int, Reservation>, id: int, now: int) {
    exists r :: r in reservations && reservations[r].connectorID == id && Live(reservations[r], now)
  }

  /** No reservation, live or expired, is bound to connector `id`. */
  ghost predicate Unbound(reservations: map<int, Reservation>, id: int) {
    forall r :: r in reservations ==> reservations[r].connectorID != id
  }

  // ---------------------------------------------------------------------
  // Shape of the store
  // ---------------------------------------------------------------------

  /** The connector identifiers 1 to n. */
  function Ids(n: nat): (ids: set<int>)
    ensures forall i :: i in ids <==> 1 <= i <= n
  {
    if n == 0 then {} else Ids(n - 1) + {n}
  }

  ghost predicate Shape(n: nat, core: Core) {
    && core.connectors.Keys == Ids(n)
    && (forall c :: c in core.connectors ==> core.connectors[c].transactionID >= 0)
    && StoreShape(core)
  }

  /** Bound connectors exist and are operative, and hold one reservation each. */
  ghost predicate StoreShape(core: Core) {
    && (forall r :: r in core.reservations ==>
          core.reservations[r].connectorID == 0 || core.reservations[r].connectorID in core.connectors)
    && (forall q, r ::
          && q in core.reservations && r in core.reservations && q != r
          && core.reservations[q].connectorID == core.reservations[r].connectorID
          ==> core.reservations[q].connectorID == 0)
    && (forall r :: r in core.reservations && core.reservations[r].connectorID in core.connectors ==>
          core.connectors[core.reservations[r].connectorID].availability == Operative)
  }

  function InitialCore(opts: Options): Core {
    Core(map c | c in Ids(opts.connectors) :: Connector(Operative, Available, 0, "", opts.meterStart), map[], false)
  }

  // ---------------------------------------------------------------------
  // Idle status
  // ---------------------------------------------------------------------

  /** What a connector without a transaction is shown as. */
  ghost function IdleFor(availability: Availability, reservations: map<int, Reservation>, id: int, now: int): Status {
    if availability == Inoperative then Unavailable
    else if LiveBound(reservations, id, now) then Reserved
    else Available
  }

  ghost function IdleStatus(core: Core, id: int, now: int): Status
    requires id in core.connectors
  {
    IdleFor(core.connectors[id].availability, core.reservations, id, now)
  }

  function WithStatus(core: Core, id: int, status: Status): Core
    requires id in core.connectors
  {
    core.(connectors := core.connectors[id := core.connectors[id].(status := status)])
  }

  ghost function MadeIdle(core: Core, id: int, now: int): Core
    requires id in core.connectors
  {
    WithStatus(core, id, IdleStatus(core, id, now))
  }

  // ---------------------------------------------------------------------
  // ChangeAvailability
  // ---------------------------------------------------------------------

  datatype AvailabilityAnswer = AvailabilityAccepted | AvailabilityRejected | AvailabilityScheduled

  function Covered(core: Core, connectorId: int): set<int> {
    if connectorId == 0 then core.connectors.Keys
    else if connectorId in core.connectors then {connectorId}
    else {}
  }

  function WithoutBound(reservations: map<int, Reservation>, ids: set<int>): map<int, Reservation> {
    map r | r in reservations && reservations[r].connectorID !in ids :: reservations[r]
  }

  ghost function ChangeAvailability(core: Core, connectorId: int, kind: Availability, now: int): Core {
    var covered := Covered(core, connectorId);
    var reservations := if kind == Inoperative then WithoutBound(core.reservations, covered) else core.reservations;
    Core(map c | c in core.connectors ::
           if c in covered then SwitchedConnector(core.connectors[c], kind, LiveBound(reservations, c, now))
           else core.connectors[c],
         reservations, core.authorizeRemote)
  }

  function SwitchedConnector(connector: Connector, kind: Availability, reserved: bool): Connector {
    var switched := connector.(availability := kind);
    if connector.transactionID > 0 then switched
    else switched.(status := if kind == Inoperative then Unavailable else if reserved then Reserved else Available)
  }

  ghost function AvailabilityAnswerFor(core: Core, connectorId: int): AvailabilityAnswer {
    if connectorId != 0 && connectorId !in core.connectors then AvailabilityRejected
    else if exists c :: c in Covered(core, connectorId) && core.connectors[c].transactionID > 0 then AvailabilityScheduled
    else AvailabilityAccepted
  }

  // ---------------------------------------------------------------------
  // Remote start and stop
  // ---------------------------------------------------------------------

  function BeginStart(core: Core, id: int, idTag: string): Core
    requires id in core.connectors
  {
    core.(connectors := core.connectors[id := core.connectors[id].(status := Preparing, idTag := idTag)])
  }

  ghost function RestoreAfterFailedStart(core: Core, id: int, now: int): Core
    requires id in core.connectors
  {
    core.(connectors := core.connectors[id :=
      core.connectors[id].(status := IdleStatus(core, id, now), idTag := "")])
  }

  function AcceptStart(core: Core, id: int, transactionID: int, reservationID: int): Core
    requires id in core.connectors
  {
    core.(connectors := core.connectors[id :=
            core.connectors[id].(transactionID := transactionID, status := Charging)],
          reservations := if reservationID > 0 then core.reservations - {reservationID} else core.reservations)
  }

  ghost function ConfirmStop(core: Core, id: int, now: int): Core
    requires id in core.connectors
  {
    core.(connectors := core.connectors[id :=
      core.connectors[id].(transactionID := 0, idTag := "", status := IdleStatus(core, id, now))])
  }

  ghost function ResetAll(core: Core, now: int): Core {
    core.(connectors := map c | c in core.connectors ::
            core.connectors[c].(transactionID := 0, idTag := "", status := IdleStatus(core, c, now)))
  }

  function MeterTick(core: Core, step: nat): Core {
    core.(connectors := map c | c in core.connectors ::
            core.connectors[c].(meter := core.connectors[c].meter + step))
  }

  // ---------------------------------------------------------------------
  // Reservations
  // ---------------------------------------------------------------------

  datatype ReserveRequest = ReserveRequest(
    connectorId: int,
    reservationId: int,
    idTag: string,
    parentIdTag: string,
    expiry: Option<int>)

  datatype ReserveAnswer =
    ReserveAccepted | ReserveRejected | ReserveOccupied | ReserveUnavailable | ReserveFaulted

  /** The expiry is compared with the clock before the lock is taken. */
  predicate FutureExpiry(request: ReserveRequest, checkedAt: int) {
    request.expiry.Some? && request.expiry.value > checkedAt
  }

  /** Delete a reservation and make the connector it was bound to idle. */
  ghost function Released(core: Core, reservationId: int, now: int): Core
    requires StoreShape(core)
  {
    if reservationId !in core.reservations then core
    else
      var c := core.reservations[reservationId].connectorID;
      var left := core.(reservations := core.reservations - {reservationId});
      if c > 0 then MadeIdle(left, c, now) else left
  }

  function Stored(core: Core, request: ReserveRequest): Core
    requires request.expiry.Some?
    requires request.connectorId > 0 ==> request.connectorId in core.connectors
  {
    var added := core.(reservations := core.reservations[request.reservationId :=
        Reservation(request.connectorId, request.idTag, request.parentIdTag, request.expiry.value)]);
    if request.connectorId > 0 then WithStatus(added, request.connectorId, Reserved) else added
  }

  /** The reservations a sweep that read the clock at `at` removes. */
  function Expired(core: Core, at: int): set<int> {
    set r | r in core.reservations && !Live(core.reservations[r], at)
  }

  ghost predicate LosesReservation(core: Core, c: int, at: int) {
    exists r :: r in core.reservations && !Live(core.reservations[r], at) && core.reservations[r].connectorID == c
  }

  ghost function Swept(core: Core, at: int, now: int): Core {
    var left := core.(reservations := core.reservations - Expired(core, at));
    left.(connectors := map c | c in core.connectors ::
            if LosesReservation(core, c, at) then core.connectors[c].(status := IdleStatus(left, c, now))
            else core.connectors[c])
  }
}
