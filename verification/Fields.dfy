/** What the answers about reservations are, in the fields of what is stored:
    tags, connectors and expiries, without the vocabulary the loops share. */
module Fields {
  import opened Station
  import opened Access

  // ---------------------------------------------------------------------
  // Reservation access
  // ---------------------------------------------------------------------

  /** Some order refuses connector `c` exactly when a live reservation for it or
      for any connector has neither tag. */
  lemma RefusalInFields(rs: map<int, Reservation>, now: int, c: int, tag: string)
    requires c != 0
    ensures (exists order :: IsOrder(order, rs.Keys) && !Walk(rs, order, now, c, tag, 0).1) <==>
      exists k ::
        && k in rs && rs[k].expiry > now && (rs[k].connectorID == 0 || rs[k].connectorID == c)
        && rs[k].idTag != tag && (rs[k].parentIDTag == "" || rs[k].parentIDTag != tag)
  {
    if order :| IsOrder(order, rs.Keys) && !Walk(rs, order, now, c, tag, 0).1 {
      var (r, granted) := Walk(rs, order, now, c, tag, 0);
      AccessExact(rs, now, c, tag, r, granted);
      var k :| Counts(rs, k, now, c) && !Matches(rs[k], tag);
      assert k in rs && rs[k].expiry > now;
    }
    if k :|
      && k in rs && rs[k].expiry > now && (rs[k].connectorID == 0 || rs[k].connectorID == c)
      && rs[k].idTag != tag && (rs[k].parentIDTag == "" || rs[k].parentIDTag != tag)
    {
      assert Counts(rs, k, now, c) && !Matches(rs[k], tag);
      var order := AnswerHasOrder(rs, now, c, tag, 0, false);
    }
  }

  /** The live reservation `k` is for connector `c`, or for any. */
  ghost predicate For(rs: map<int, Reservation>, k: int, now: int, c: int) {
    k in rs && rs[k].expiry > now && (rs[k].connectorID == 0 || rs[k].connectorID == c)
  }

  ghost predicate Bears(r: Reservation, tag: string) {
    r.idTag == tag || (r.parentIDTag == tag && tag != "")
  }

  /** Some order grants connector `c` with reservation `r` exactly when `r` is
      live, bound to `c` and bears the tag; or when all live reservations for `c`
      are connector-zero ones that bear it and `r` is one of them, or 0 for none. */
  lemma GrantInFields(rs: map<int, Reservation>, now: int, c: int, tag: string, r: int)
    requires c != 0
    ensures (exists order :: IsOrder(order, rs.Keys) && Walk(rs, order, now, c, tag, 0) == (r, true)) <==>
      || (For(rs, r, now, c) && rs[r].connectorID == c && Bears(rs[r], tag))
      || (&& (forall k :: For(rs, k, now, c) ==> rs[k].connectorID == 0 && Bears(rs[k], tag))
          && (For(rs, r, now, c) || (r == 0 && forall k :: !For(rs, k, now, c))))
  {
    AccessExact(rs, now, c, tag, r, true);
    forall k
      ensures For(rs, k, now, c) <==> Counts(rs, k, now, c)
      ensures k in rs ==> (Bears(rs[k], tag) <==> Matches(rs[k], tag))
    {}
    if MayGrant(rs, now, c, tag, r) && !(Counts(rs, r, now, c) && rs[r].connectorID == c && Matches(rs[r], tag)) {
      forall k | For(rs, k, now, c)
        ensures rs[k].connectorID == 0 && Bears(rs[k], tag)
      {
        assert Counts(rs, k, now, c);
      }
    }
  }

  /** Where only one reservation is live, bound to `c`, the tag of its group is
      enough, whatever the order. */
  lemma GroupTagIsGranted(rs: map<int, Reservation>, b: int, now: int, c: int, order: seq<int>)
    requires c != 0 && b in rs && rs[b].connectorID == c && rs[b].expiry > now && rs[b].parentIDTag != ""
    requires forall k :: k in rs && k != b ==> rs[k].expiry <= now
    requires IsOrder(order, rs.Keys)
    ensures Walk(rs, order, now, c, rs[b].parentIDTag, 0) == (b, true)
  {
    var tag := rs[b].parentIDTag;
    WalkIsSound(rs, order, now, c, tag, 0);
    assert b in order && Counts(rs, b, now, c) && Matches(rs[b], tag);
    assert forall k :: Counts(rs, k, now, c) ==> k == b;
  }

  // ---------------------------------------------------------------------
  // A remote start
  // ---------------------------------------------------------------------

  /** A named connector is accepted with reservation `r` by some order exactly
      when it exists, is operative, has no transaction, shows Available or
      Reserved, and the walk can grant it. */
  lemma NamedStartInFields(core: Core, now: int, q: int, tag: string, c: int, r: int)
    requires 0 !in core.connectors
    ensures MayChoose(core, now, Some(q), tag, Chosen(c, r)) <==>
      && c == q && c in core.connectors
      && core.connectors[c].availability == Operative && core.connectors[c].transactionID == 0
      && (core.connectors[c].status == Available || core.connectors[c].status == Reserved)
      && exists order :: IsOrder(order, core.reservations.Keys)
           && Walk(core.reservations, order, now, c, tag, 0) == (r, true)
  {
    if c != 0 {
      AccessExact(core.reservations, now, c, tag, r, true);
    }
  }

  /** And it is rejected by some order exactly when one of these fails or the
      walk can refuse it. */
  lemma NamedRejectionInFields(core: Core, now: int, q: int, tag: string)
    requires 0 !in core.connectors
    ensures MayChoose(core, now, Some(q), tag, NoConnector) <==>
      || q !in core.connectors
      || core.connectors[q].availability != Operative || core.connectors[q].transactionID != 0
      || (core.connectors[q].status != Available && core.connectors[q].status != Reserved)
      || exists order :: IsOrder(order, core.reservations.Keys)
           && !Walk(core.reservations, order, now, q, tag, 0).1
  {
    if q in core.connectors {
      var rs := core.reservations;
      if MayRefuse(rs, now, q, tag) {
        var order := AnswerHasOrder(rs, now, q, tag, 0, false);
      }
      if order :| IsOrder(order, rs.Keys) && !Walk(rs, order, now, q, tag, 0).1 {
        var (r, granted) := Walk(rs, order, now, q, tag, 0);
        AccessExact(rs, now, q, tag, r, granted);
      }
    }
  }

  /** The second pass of a start that names no connector takes only connectors
      that show Available. */
  lemma SecondPassInFields(core: Core, now: int, tag: string, c: int, r: int)
    requires 0 !in core.connectors
    ensures SecondTakes(core, now, tag, c, r) <==>
      && c in core.connectors
      && core.connectors[c].availability == Operative && core.connectors[c].transactionID == 0
      && core.connectors[c].status == Available
      && exists order :: IsOrder(order, core.reservations.Keys)
           && Walk(core.reservations, order, now, c, tag, 0) == (r, true)
  {
    if c != 0 {
      AccessExact(core.reservations, now, c, tag, r, true);
    }
  }

  // ---------------------------------------------------------------------
  // A ReserveNow
  // ---------------------------------------------------------------------

  /** Reservation `id` is bound to connector `c`. */
  ghost predicate BoundTo(core: Core, id: int, c: int) {
    id in core.reservations && core.reservations[id].connectorID == c
  }

  /** The verdict on a reservation for connector `c`, in the state before the
      request.  A reservation with the same identifier does not stand in the
      way; if it is bound to `c`, the connector is shown idle first. */
  ghost function NamedVerdict(core: Core, id: int, c: int): ReserveAnswer {
    if c !in core.connectors then ReserveRejected
    else
      var connector := core.connectors[c];
      if BoundTo(core, id, c) then
        if connector.transactionID > 0 then ReserveOccupied else ReserveAccepted
      else
        match connector.status
        case Faulted => ReserveFaulted
        case Unavailable => ReserveUnavailable
        case _ =>
          if connector.availability == Inoperative then ReserveUnavailable
          else if connector.transactionID > 0 then ReserveOccupied
          else
            match connector.status
            case Available =>
              if exists r :: r != id && BoundTo(core, r, c) then ReserveOccupied else ReserveAccepted
            case Reserved =>
              if exists r :: r != id && BoundTo(core, r, c) then ReserveOccupied else ReserveAccepted
            case _ => ReserveOccupied
  }

  lemma ReleasedConnector(core: Core, id: int, c: int, now: int)
    requires StoreShape(core) && c != 0 && c in core.connectors && forall d :: d in core.connectors ==> d > 0
    ensures c in Released(core, id, now).connectors
    ensures Released(core, id, now).connectors[c] ==
      if BoundTo(core, id, c) then core.connectors[c].(status := Available) else core.connectors[c]
    ensures Unbound(Released(core, id, now).reservations, c) <==> forall r :: r != id ==> !BoundTo(core, r, c)
  {
    var left := Released(core, id, now).reservations;
    assert left.Keys == core.reservations.Keys - {id};
    if Unbound(left, c) {
      forall r | r != id
        ensures !BoundTo(core, r, c)
      {
        assert BoundTo(core, r, c) ==> r in left;
      }
    }
    if forall r :: r != id ==> !BoundTo(core, r, c) {
      forall r | r in left
        ensures left[r].connectorID != c
      {
        assert r in core.reservations && r != id && !BoundTo(core, r, c);
      }
    }
    if BoundTo(core, id, c) {
      assert core.connectors[c].availability == Operative;
      forall r | r in left
        ensures left[r].connectorID != c
      {
        assert r in core.reservations && r != id;
      }
    }
  }

  lemma NamedVerdictInFields(core: Core, request: ReserveRequest, now: int, answer: ReserveAnswer)
    requires StoreShape(core) && request.connectorId != 0 && forall d :: d in core.connectors ==> d > 0
    ensures ReserveMayAnswer(Released(core, request.reservationId, now), now, request, answer) <==>
      answer == NamedVerdict(core, request.reservationId, request.connectorId)
  {
    var id, c := request.reservationId, request.connectorId;
    if c in core.connectors {
      ReleasedConnector(core, id, c, now);
      if BoundTo(core, id, c) {
        forall r | r != id
          ensures !BoundTo(core, r, c)
        {}
      }
    }
  }

  /** Some order of the walk grants connector `c`. */
  ghost predicate CanGrant(core: Core, now: int, c: int, tag: string) {
    exists order :: IsOrder(order, core.reservations.Keys)
      && Walk(core.reservations, order, now, c, tag, 0).1
  }

  ghost predicate CanRefuse(core: Core, now: int, c: int, tag: string) {
    exists order :: IsOrder(order, core.reservations.Keys)
      && !Walk(core.reservations, order, now, c, tag, 0).1
  }

  lemma VerdictsOf(core: Core, now: int, c: int, tag: string)
    requires c != 0
    ensures MayRefuse(core.reservations, now, c, tag) <==> CanRefuse(core, now, c, tag)
    ensures (exists r :: MayGrant(core.reservations, now, c, tag, r)) <==> CanGrant(core, now, c, tag)
  {
    var rs := core.reservations;
    if MayRefuse(rs, now, c, tag) {
      var order := AnswerHasOrder(rs, now, c, tag, 0, false);
    }
    if r :| MayGrant(rs, now, c, tag, r) {
      var order := AnswerHasOrder(rs, now, c, tag, r, true);
    }
    forall order | IsOrder(order, rs.Keys)
      ensures !Walk(rs, order, now, c, tag, 0).1 ==> MayRefuse(rs, now, c, tag)
      ensures Walk(rs, order, now, c, tag, 0).1 ==> exists r :: MayGrant(rs, now, c, tag, r)
    {
      var (r, granted) := Walk(rs, order, now, c, tag, 0);
      AccessExact(rs, now, c, tag, r, granted);
    }
  }

  /** The connector is operative and has no transaction. */
  predicate Ready(core: Core, c: int) {
    && c in core.connectors
    && core.connectors[c].availability == Operative && core.connectors[c].transactionID == 0
  }

  /** A connector-zero reservation is accepted by some orders exactly when some
      ready connector can be granted; Occupied when every one of these can be
      refused and some connector is operative; Unavailable when none is. */
  lemma ZeroVerdictInFields(core: Core, now: int, tag: string, answer: ReserveAnswer)
    requires 0 !in core.connectors
    ensures ZeroMayAnswer(core, now, tag, answer) <==>
      match answer
      case ReserveAccepted => exists c :: Ready(core, c) && CanGrant(core, now, c, tag)
      case ReserveOccupied =>
        && (exists c :: c in core.connectors && core.connectors[c].availability == Operative)
        && (forall c :: Ready(core, c) ==> CanRefuse(core, now, c, tag))
      case ReserveUnavailable => forall c :: c in core.connectors ==> core.connectors[c].availability != Operative
      case _ => false
  {
    var rs := core.reservations;
    forall c | c in core.connectors
      ensures MayRefuse(rs, now, c, tag) <==> CanRefuse(core, now, c, tag)
      ensures (exists r :: MayGrant(rs, now, c, tag, r)) <==> CanGrant(core, now, c, tag)
    {
      VerdictsOf(core, now, c, tag);
    }
    assert forall c :: Ready(core, c) <==> Eligible(core, c);
    if c :| Ready(core, c) && CanGrant(core, now, c, tag) {
      var r :| MayGrant(rs, now, c, tag, r);
      assert Eligible(core, c) && MayGrant(rs, now, c, tag, r);
    }
    if c, r :| Eligible(core, c) && MayGrant(rs, now, c, tag, r) {
      assert Ready(core, c) && CanGrant(core, now, c, tag);
    }
  }

  // ---------------------------------------------------------------------
  // A ChangeAvailability
  // ---------------------------------------------------------------------

  /** Rejected exactly for a connector that does not exist; Scheduled exactly if
      a covered one has an open transaction; otherwise accepted. */
  lemma AvailabilityAnswerInFields(core: Core, id: int)
    requires 0 !in core.connectors
    ensures var answer := AvailabilityAnswerFor(core, id);
      && (answer == AvailabilityRejected <==> id != 0 && id !in core.connectors)
      && (answer == AvailabilityScheduled <==>
            exists c :: c in core.connectors && (id == 0 || id == c) && core.connectors[c].transactionID > 0)
  {
    if c :| c in core.connectors && (id == 0 || id == c) && core.connectors[c].transactionID > 0 {
      assert c in Covered(core, id);
    }
  }
}
