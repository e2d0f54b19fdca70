/** Every locked section keeps the shape of the store. */
module Shapes {
  import opened Station
  import opened Access

  /** Same connectors and availabilities, no new reservation. */
  ghost predicate Narrows(core: Core, core': Core) {
    && core'.connectors.Keys == core.connectors.Keys
    && (forall c :: c in core.connectors ==>
          core'.connectors[c].availability == core.connectors[c].availability
          && core'.connectors[c].transactionID >= 0)
    && (forall r :: r in core'.reservations ==>
          r in core.reservations && core'.reservations[r] == core.reservations[r])
  }

  lemma NarrowingKeepsShape(n: nat, core: Core, core': Core)
    requires Shape(n, core) && Narrows(core, core')
    ensures Shape(n, core')
  {
    var rs, rs' := core.reservations, core'.reservations;
    forall q, r | q in rs' && r in rs' && q != r && rs'[q].connectorID == rs'[r].connectorID
      ensures rs'[q].connectorID == 0
    {
      assert q in rs && r in rs;
    }
  }

  lemma ReservingKeepsShape(n: nat, core: Core, request: ReserveRequest, now: int)
    requires Shape(n, core) && request.expiry.Some? && request.reservationId !in core.reservations
    requires ReserveMayAnswer(core, now, request, ReserveAccepted)
    ensures request.connectorId > 0 ==> request.connectorId in core.connectors
    ensures Shape(n, Stored(core, request))
  {}

  lemma AvailabilityKeepsShape(n: nat, core: Core, id: int, kind: Availability, now: int)
    requires Shape(n, core)
    ensures Shape(n, ChangeAvailability(core, id, kind, now))
  {}

  lemma SweptKeepsShape(n: nat, core: Core, at: int, now: int)
    requires Shape(n, core)
    ensures Shape(n, Swept(core, at, now))
  {
    NarrowingKeepsShape(n, core, Swept(core, at, now));
  }

  lemma MeterTickKeepsShape(n: nat, core: Core, step: nat)
    requires Shape(n, core)
    ensures Shape(n, MeterTick(core, step)) && MeterTick(core, step).connectors.Keys == core.connectors.Keys
  {
    NarrowingKeepsShape(n, core, MeterTick(core, step));
  }
}
