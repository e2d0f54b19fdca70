/** The charge point in place: one method for each locked section, over the
    connector objects and the reservation map, each tied to its function in
    `Station`.  `now` is the clock while the lock is held. */
module Simulators {
  import opened Station
  import opened Access
  import opened Shapes
  import opened Walks
  import opened Samples
  import Charging = ChargingProfiles

  class ConnectorState {
    var availability: Availability
    var status: Status
    var transactionID: int
    var idTag: string
    var meter: int

    constructor (meterStart: int)
      ensures Value() == Connector(Operative, Available, 0, "", meterStart)
    {
      availability, status, transactionID, idTag, meter := Operative, Available, 0, "", meterStart;
    }

    function Value(): Connector
      reads this
    {
      Connector(availability, status, transactionID, idTag, meter)
    }
  }

  ghost predicate HoldsLive(rs: map<int, Reservation>, r: int, id: int, now: int) {
    r in rs && rs[r].connectorID == id && Live(rs[r], now)
  }

  datatype AttachedProfile = AttachedProfile(id: int, profile: Charging.Profile)

  /** Connector `c` has no transaction and its idle status afterwards. */
  ghost predicate IdleAgain(
      before: map<int, Connector>, after: map<int, Connector>, rs: map<int, Reservation>, c: int, now: int) {
    && c in before && c in after
    && after[c] == before[c].(
         transactionID := 0, idTag := "", status := IdleFor(before[c].availability, rs, c, now))
  }

  method MakeConnectors(opts: Options) returns (made: map<int, ConnectorState>)
    ensures made.Keys == Ids(opts.connectors)
    ensures forall c :: c in made ==> fresh(made[c])
    ensures forall c :: c in made ==> made[c].Value() == Connector(Operative, Available, 0, "", opts.meterStart)
    ensures forall c, d :: c in made && d in made && c != d ==> made[c] != made[d]
  {
    made := map[];
    for id := 1 to opts.connectors + 1
      invariant made.Keys == Ids(id - 1)
      invariant forall c :: c in made ==> fresh(made[c])
      invariant forall c :: c in made ==> made[c].Value() == Connector(Operative, Available, 0, "", opts.meterStart)
      invariant forall c, d :: c in made && d in made && c != d ==> made[c] != made[d]
    {
      var connector := new ConnectorState(opts.meterStart);
      made := made[id := connector];
    }
  }

  class Simulator {
    const opts: Options
    const connectors: map<int, ConnectorState>
    const charging: Charging.ProfileStore
    var reservations: map<int, Reservation>
    var authorizeRemote: bool

    ghost function Contents(): Core
      reads this, connectors.Values
    {
      Core(map c | c in connectors :: connectors[c].Value(), reservations, authorizeRemote)
    }

    /** Every connector has an object of its own. */
    ghost predicate Apart() {
      forall c, d :: c in connectors && d in connectors && c != d ==> connectors[c] != connectors[d]
    }

    ghost predicate Valid()
      reads this, connectors.Values
    {
      Apart() && Shape(opts.connectors, Contents())
    }

    /** Writing to one connector object changes one entry of the contents. */
    twostate lemma OneWritten(id: int)
      requires Apart() && id in connectors
      requires forall d :: d in connectors && d != id ==> unchanged(connectors[d])
      ensures Contents().connectors == old(Contents()).connectors[id := connectors[id].Value()]
    {
      var before, after := old(Contents()).connectors, Contents().connectors;
      forall d | d in connectors
        ensures after[d] == before[id := connectors[id].Value()][d]
      {}
    }

    constructor (opts: Options)
      ensures Valid() && this.opts == opts && forall c :: c in connectors ==> fresh(connectors[c])
      ensures fresh(charging) && charging.profiles == map[]
      ensures Contents() == InitialCore(opts)
    {
      this.opts := opts;
      charging := new Charging.ProfileStore();
      var made := MakeConnectors(opts);
      connectors := made;
      reservations := map[];
      authorizeRemote := false;
      new;
      assert Contents().connectors == InitialCore(opts).connectors;
    }

    /** The connectors in `done` have their new value, the others the old. */
    ghost predicate Blend(before: map<int, Connector>, after: map<int, Connector>, done: set<int>)
      reads connectors.Values
    {
      && before.Keys == after.Keys == connectors.Keys
      && forall c :: c in connectors ==> connectors[c].Value() == if c in done then after[c] else before[c]
    }

    lemma Blended(before: map<int, Connector>, after: map<int, Connector>, done: set<int>)
      requires Blend(before, after, done)
      requires forall c :: c in connectors && c !in done ==> after[c] == before[c]
      ensures Contents().connectors == after
    {
      forall c | c in connectors
        ensures Contents().connectors[c] == after[c]
      {}
    }

    lemma SettledOn(
        before: map<int, Connector>, after: map<int, Connector>, done: set<int>, final: map<int, Connector>)
      requires Blend(before, after, done) && final.Keys == connectors.Keys
      requires forall c :: c in connectors ==> final[c] == if c in done then after[c] else before[c]
      ensures Contents().connectors == final
    {
      forall c | c in connectors
        ensures Contents().connectors[c] == final[c]
      {}
    }

    // -------------------------------------------------------------------
    // Reads
    // -------------------------------------------------------------------

    method IdleStatusOf(id: int, now: int) returns (status: Status)
      requires id in connectors
      ensures status == IdleFor(connectors[id].availability, reservations, id, now)
    {
      if connectors[id].availability == Inoperative {
        return Unavailable;
      }
      var order := WalkOrder(reservations.Keys);
      for i := 0 to |order|
        invariant forall k :: 0 <= k < i ==> !HoldsLive(reservations, order[k], id, now)
      {
        var r := order[i];
        if reservations[r].connectorID == id && Live(reservations[r], now) {
          return Reserved;
        }
      }
      forall r | r in reservations
        ensures !HoldsLive(reservations, r, id, now)
      {
        assert r in order;
      }
      return Available;
    }

    /** The walk is `Walk` on some order, so its answer is one `MayAnswer` allows. */
    method ReservationAccess(c: int, tag: string, now: int) returns (r: int, granted: bool)
      requires c != 0
      ensures MayAnswer(reservations, now, c, tag, r, granted)
    {
      var matchedGlobal := 0;
      var order := WalkOrder(reservations.Keys);
      for i := 0 to |order|
        invariant Walk(reservations, order, now, c, tag, 0) == Walk(reservations, order[i..], now, c, tag, matchedGlobal)
      {
        var k := order[i];
        var current := reservations[k];
        assert order[i..][0] == k && order[i..][1..] == order[i + 1..];
        if !Live(current, now) {
          continue;
        }
        if current.connectorID != 0 && current.connectorID != c {
          continue;
        }
        var matches := Matches(current, tag);
        if current.connectorID == c {
          AccessExact(reservations, now, c, tag, if matches then k else 0, matches);
          if matches {
            return k, true;
          }
          return 0, false;
        }
        if matches {
          matchedGlobal := k;
        } else {
          AccessExact(reservations, now, c, tag, 0, false);
          return 0, false;
        }
      }
      assert order[|order|..] == [];
      AccessExact(reservations, now, c, tag, matchedGlobal, true);
      return matchedGlobal, true;
    }

    method NamedConnector(q: int, tag: string, now: int) returns (choice: Choice)
      requires Valid()
      ensures MayChoose(Contents(), now, Some(q), tag, choice)
    {
      if q !in connectors || connectors[q].availability != Operative || connectors[q].transactionID != 0 {
        return NoConnector;
      }
      assert q in Contents().connectors;
      var r, granted := ReservationAccess(q, tag, now);
      if !granted || (connectors[q].status != Available && connectors[q].status != Reserved) {
        return NoConnector;
      }
      return Chosen(q, r);
    }

    /** The lowest connector with a reservation for the tag. */
    method FirstPass(tag: string, now: int) returns (choice: Choice)
      requires Valid()
      ensures choice.Chosen? ==> AutoMayChoose(Contents(), now, tag, choice)
      ensures choice.NoConnector? ==> forall d :: d in connectors ==> FirstSkips(Contents(), now, tag, d)
    {
      ghost var core := Contents();
      for id := 1 to opts.connectors + 1
        invariant forall d :: 1 <= d < id ==> FirstSkips(core, now, tag, d)
      {
        assert id in core.connectors;
        var connector := connectors[id];
        if connector.availability != Operative || connector.transactionID != 0 {
          continue;
        }
        var r, granted := ReservationAccess(id, tag, now);
        if granted && r > 0 && (connector.status == Available || connector.status == Reserved) {
          return Chosen(id, r);
        }
      }
      return NoConnector;
    }

    /** The lowest connector that is Available and allowed. */
    method SecondPass(tag: string, now: int) returns (choice: Choice)
      requires Valid()
      requires forall d :: d in connectors ==> FirstSkips(Contents(), now, tag, d)
      ensures AutoMayChoose(Contents(), now, tag, choice)
    {
      ghost var core := Contents();
      for id := 1 to opts.connectors + 1
        invariant forall d :: 1 <= d < id ==> SecondSkips(core, now, tag, d)
      {
        assert id in core.connectors;
        var connector := connectors[id];
        if connector.availability != Operative || connector.transactionID != 0 || connector.status != Available {
          continue;
        }
        var r, granted := ReservationAccess(id, tag, now);
        if granted {
          return Chosen(id, r);
        }
      }
      return NoConnector;
    }

    /** The two passes of an automatic choice, or the check of a named one. */
    method SelectRemoteStartConnector(requested: Option<int>, tag: string, now: int) returns (choice: Choice)
      requires Valid()
      ensures MayChoose(Contents(), now, requested, tag, choice)
    {
      if requested.Some? {
        choice := NamedConnector(requested.value, tag, now);
        return;
      }
      choice := FirstPass(tag, now);
      if choice.NoConnector? {
        choice := SecondPass(tag, now);
      }
    }

    /** What a goroutine reads about its connector. */
    method ReadConnector(id: int) returns (meter: int, idTag: string)
      requires id in connectors
      ensures meter == Contents().connectors[id].meter && idTag == Contents().connectors[id].idTag
    {
      return connectors[id].meter, connectors[id].idTag;
    }

    method SetAuthorizeRemote(value: bool)
      requires Valid()
      modifies this`authorizeRemote
      ensures Valid() && Contents() == old(Contents()).(authorizeRemote := value)
    {
      authorizeRemote := value;
      NarrowingKeepsShape(opts.connectors, old(Contents()), Contents());
    }

    // -------------------------------------------------------------------
    // Remote start and stop
    // -------------------------------------------------------------------

    method MakePreparing(id: int, tag: string)
      requires Valid() && id in connectors
      modifies connectors.Values
      ensures Valid() && Contents() == BeginStart(old(Contents()), id, tag)
    {
      connectors[id].status := Preparing;
      connectors[id].idTag := tag;
      OneWritten(id);
      NarrowingKeepsShape(opts.connectors, old(Contents()), Contents());
    }

    method AttachProfile(id: int, attached: Option<AttachedProfile>)
      modifies charging
      ensures charging.profiles ==
        if attached.Some?
        then old(charging.profiles)[attached.value.id := Charging.Stored(id, attached.value.profile)]
        else old(charging.profiles)
      ensures Contents() == old(Contents())
    {
      if attached.Some? {
        charging.StoreProfile(attached.value.id, id, attached.value.profile);
      }
    }

    /** A charging profile that comes with an accepted request is stored for
        the chosen connector, in the same section. */
    method OnRemoteStartTransaction(
        requested: Option<int>, tag: string, attached: Option<AttachedProfile>, now: int) returns (choice: Choice)
      requires Valid()
      modifies connectors.Values, charging
      ensures Valid()
      ensures charging.profiles ==
        if choice.Chosen? && attached.Some?
        then old(charging.profiles)[attached.value.id :=
          Charging.Stored(choice.connectorID, attached.value.profile)]
        else old(charging.profiles)
      ensures MayChoose(old(Contents()), now, requested, tag, choice)
      ensures choice.NoConnector? ==> Contents() == old(Contents())
      ensures choice.Chosen? ==>
        choice.connectorID in connectors && Contents() == BeginStart(old(Contents()), choice.connectorID, tag)
    {
      choice := SelectRemoteStartConnector(requested, tag, now);
      if choice.Chosen? {
        ChosenIsAcceptedByName(Contents(), now, requested, tag, choice.connectorID, choice.reservationID);
        MakePreparing(choice.connectorID, tag);
        AttachProfile(choice.connectorID, attached);
      }
    }

    method RestoreConnectorAfterFailedStart(id: int, now: int)
      requires Valid() && id in connectors
      modifies connectors.Values
      ensures Valid() && Contents() == RestoreAfterFailedStart(old(Contents()), id, now)
    {
      var status := IdleStatusOf(id, now);
      connectors[id].status := status;
      connectors[id].idTag := "";
      OneWritten(id);
      NarrowingKeepsShape(opts.connectors, old(Contents()), Contents());
    }

    method AcceptTransaction(id: int, transactionID: int, reservationID: int)
      requires Valid() && id in connectors
      modifies this`reservations, connectors.Values
      ensures Contents() == AcceptStart(old(Contents()), id, transactionID, reservationID)
      ensures transactionID >= 0 ==> Valid()
    {
      connectors[id].transactionID := transactionID;
      connectors[id].status := Charging;
      if reservationID > 0 {
        reservations := reservations - {reservationID};
      }
      OneWritten(id);
      if transactionID >= 0 {
        NarrowingKeepsShape(opts.connectors, old(Contents()), Contents());
      }
    }

    /** The first connector of the walk with the transaction is shown Finishing. */
    method OnRemoteStopTransaction(transactionId: int) returns (found: Option<int>)
      requires Valid()
      modifies connectors.Values
      ensures Valid()
      ensures match found
        case None =>
          && Contents() == old(Contents())
          && forall c :: c in connectors ==> old(Contents()).connectors[c].transactionID != transactionId
        case Some(c) =>
          && c in connectors && old(Contents()).connectors[c].transactionID == transactionId
          && Contents() == WithStatus(old(Contents()), c, Finishing)
    {
      var order := WalkOrder(connectors.Keys);
      for i := 0 to |order|
        invariant Contents() == old(Contents()) && Valid()
        invariant forall k :: 0 <= k < i ==> order[k] in connectors && connectors[order[k]].transactionID != transactionId
      {
        var id := order[i];
        if connectors[id].transactionID == transactionId {
          connectors[id].status := Finishing;
          OneWritten(id);
          NarrowingKeepsShape(opts.connectors, old(Contents()), Contents());
          return Some(id);
        }
      }
      return None;
    }

    /** The three writes that end a transaction on a connector. */
    method ClearConnector(id: int, now: int)
      requires id in connectors
      modifies connectors[id]
      ensures connectors[id].Value() == old(connectors[id].Value()).(
        transactionID := 0, idTag := "", status := IdleFor(old(connectors[id].availability), reservations, id, now))
    {
      connectors[id].transactionID := 0;
      connectors[id].idTag := "";
      var status := IdleStatusOf(id, now);
      connectors[id].status := status;
    }

    method ConfirmStopTransaction(id: int, now: int)
      requires Valid() && id in connectors
      modifies connectors.Values
      ensures Valid() && Contents() == ConfirmStop(old(Contents()), id, now)
    {
      ClearConnector(id, now);
      OneWritten(id);
      NarrowingKeepsShape(opts.connectors, old(Contents()), Contents());
    }

    /** One turn of a walk that clears every connector. */
    method ClearInTurn(
        id: int, now: int, ghost before: map<int, Connector>, ghost after: map<int, Connector>, ghost done: set<int>)
      requires Apart() && id in connectors && id !in done && Blend(before, after, done)
      requires IdleAgain(before, after, reservations, id, now)
      modifies connectors[id]
      ensures Blend(before, after, done + {id})
    {
      ClearConnector(id, now);
      forall c | c in connectors
        ensures connectors[c].Value() == if c in done + {id} then after[c] else before[c]
      {
        assert c != id ==> connectors[c] != connectors[id];
      }
    }

    method ClearAll(now: int, ghost before: map<int, Connector>, ghost after: map<int, Connector>)
      requires Apart() && Blend(before, after, {})
      requires forall c :: c in connectors ==> IdleAgain(before, after, reservations, c, now)
      modifies connectors.Values
      ensures Blend(before, after, connectors.Keys)
    {
      ghost var done: set<int> := {};
      var order := WalkOrder(connectors.Keys);
      for i := 0 to |order|
        invariant Blend(before, after, done)
        invariant forall k :: 0 <= k < |order| ==> (order[k] in done <==> k < i)
      {
        var id := order[i];
        ClearInTurn(id, now, before, after, done);
        done := done + {id};
      }
      AllReached(order, connectors.Keys, done);
    }

    method OnReset(now: int)
      requires Valid()
      modifies connectors.Values
      ensures Valid() && Contents() == ResetAll(old(Contents()), now)
    {
      ghost var before, after := Contents().connectors, ResetAll(Contents(), now).connectors;
      ClearAll(now, before, after);
      Blended(before, after, connectors.Keys);
      NarrowingKeepsShape(opts.connectors, old(Contents()), Contents());
    }

    // -------------------------------------------------------------------
    // Availability
    // -------------------------------------------------------------------

    method RemoveReservationsForConnector(id: int)
      modifies this`reservations
      ensures reservations == WithoutBound(old(reservations), {id})
    {
      ghost var before := reservations;
      var order := WalkOrder(reservations.Keys);
      for i := 0 to |order|
        invariant forall r :: r in reservations ==> r in before && reservations[r] == before[r]
        invariant forall r :: r in before && before[r].connectorID != id ==> r in reservations
        invariant forall k :: i <= k < |order| ==> order[k] in reservations
        invariant forall k :: 0 <= k < i ==> !Bound(reservations, order[k], id)
      {
        var r := order[i];
        if reservations[r].connectorID == id {
          reservations := reservations - {r};
        }
      }
      forall r | r in reservations
        ensures !Bound(reservations, r, id)
      {
        var k := IndexIn(order, before.Keys, r);
      }
      UnboundRest(before, reservations, id);
    }

    /** One connector of a ChangeAvailability. */
    method SwitchInTurn(
        id: int, kind: Availability, now: int,
        ghost before: map<int, Connector>, ghost after: map<int, Connector>, ghost done: set<int>)
        returns (scheduled: bool)
      requires Apart() && id in connectors && id !in done && Blend(before, after, done)
      requires after[id] == SwitchedConnector(before[id], kind, LiveBound(reservations, id, now))
      modifies this`reservations, connectors[id]
      ensures Blend(before, after, done + {id})
      ensures reservations == if kind == Inoperative then WithoutBound(old(reservations), {id}) else old(reservations)
      ensures scheduled == (before[id].transactionID > 0)
    {
      connectors[id].availability := kind;
      if kind == Inoperative {
        RemoveReservationsForConnector(id);
      }
      scheduled := connectors[id].transactionID > 0;
      if !scheduled {
        var status := IdleStatusOf(id, now);
        connectors[id].status := status;
      }
      forall c | c in connectors
        ensures connectors[c].Value() == if c in done + {id} then after[c] else before[c]
      {
        assert c != id ==> connectors[c] != connectors[id];
      }
    }

    method SwitchAll(
        ids: seq<int>, kind: Availability, now: int,
        ghost before: map<int, Connector>, ghost after: map<int, Connector>, ghost covered: set<int>)
        returns (scheduled: bool)
      requires Apart() && IsOrder(ids, covered) && covered <= connectors.Keys && Blend(before, after, {})
      requires forall c :: c in connectors && c !in covered ==> after[c] == before[c]
      requires forall c :: c in covered ==> after[c] == SwitchedConnector(before[c], kind, LiveBound(reservations, c, now))
      modifies this`reservations, connectors.Values
      ensures Contents().connectors == after
      ensures reservations == if kind == Inoperative then WithoutBound(old(reservations), covered) else old(reservations)
      ensures scheduled <==> exists c :: c in covered && before[c].transactionID > 0
    {
      ghost var done: set<int> := {};
      scheduled := false;
      for i := 0 to |ids|
        invariant done <= covered && Blend(before, after, done)
        invariant forall k :: 0 <= k < |ids| ==> (ids[k] in done <==> k < i)
        invariant reservations == if kind == Inoperative then WithoutBound(old(reservations), done) else old(reservations)
        invariant scheduled <==> exists c :: c in done && before[c].transactionID > 0
      {
        var id := ids[i];
        assert id in covered;
        SwitchedAlike(before[id], kind, old(reservations), reservations, done, id, now);
        var open := SwitchInTurn(id, kind, now, before, after, done);
        scheduled := scheduled || open;
        done := done + {id};
      }
      AllReached(ids, covered, done);
      Blended(before, after, done);
    }

    method CoveredIds(connectorId: int) returns (ids: seq<int>)
      requires connectorId == 0 || connectorId in connectors
      ensures IsOrder(ids, Covered(Contents(), connectorId))
    {
      if connectorId == 0 {
        ids := WalkOrder(connectors.Keys);
        assert Contents().connectors.Keys == connectors.Keys;
      } else {
        ids := [connectorId];
      }
    }

    method SwitchCovered(connectorId: int, kind: Availability, now: int) returns (scheduled: bool)
      requires Apart() && (connectorId == 0 || connectorId in connectors)
      modifies this`reservations, connectors.Values
      ensures Contents() == ChangeAvailability(old(Contents()), connectorId, kind, now)
      ensures scheduled <==> exists c ::
        c in Covered(old(Contents()), connectorId) && old(Contents()).connectors[c].transactionID > 0
    {
      ghost var core := Contents();
      var ids := CoveredIds(connectorId);
      ghost var after := ChangeAvailability(core, connectorId, kind, now);
      ChangedConnectors(core, connectorId, kind, now);
      scheduled := SwitchAll(ids, kind, now, core.connectors, after.connectors, Covered(core, connectorId));
      assert Contents() == after;
    }

    method OnChangeAvailability(connectorId: int, kind: Availability, now: int) returns (answer: AvailabilityAnswer)
      requires Valid()
      modifies this`reservations, connectors.Values
      ensures Valid() && Contents() == ChangeAvailability(old(Contents()), connectorId, kind, now)
      ensures answer == AvailabilityAnswerFor(old(Contents()), connectorId)
    {
      ghost var core := Contents();
      if connectorId != 0 && connectorId !in connectors {
        UncoveredIsUnchanged(core, connectorId, kind, now);
        return AvailabilityRejected;
      }
      var scheduled := SwitchCovered(connectorId, kind, now);
      AvailabilityKeepsShape(opts.connectors, core, connectorId, kind, now);
      return if scheduled then AvailabilityScheduled else AvailabilityAccepted;
    }

    // -------------------------------------------------------------------
    // Reservations
    // -------------------------------------------------------------------

    /** Delete a reservation and make its connector idle. */
    method Release(reservationId: int, now: int) returns (found: bool)
      requires Valid()
      modifies this`reservations, connectors.Values
      ensures Valid() && Contents() == Released(old(Contents()), reservationId, now)
      ensures found <==> reservationId in old(reservations)
    {
      found := reservationId in reservations;
      if found {
        var c := reservations[reservationId].connectorID;
        reservations := reservations - {reservationId};
        if c > 0 {
          var status := IdleStatusOf(c, now);
          connectors[c].status := status;
          OneWritten(c);
        }
        NarrowingKeepsShape(opts.connectors, old(Contents()), Contents());
      }
    }

    /** Does some operative connector without a transaction admit the tag? */
    method ZeroAnswer(tag: string, now: int) returns (answer: ReserveAnswer)
      requires Valid()
      ensures ZeroMayAnswer(Contents(), now, tag, answer)
    {
      var operative := false;
      var order := WalkOrder(connectors.Keys);
      for i := 0 to |order|
        invariant operative ==> exists c :: c in connectors && connectors[c].availability == Operative
        invariant forall k :: 0 <= k < i ==> Unusable(Contents(), now, tag, order[k], operative)
      {
        var id := order[i];
        assert id in Contents().connectors;
        var connector := connectors[id];
        if connector.availability == Operative {
          operative := true;
        }
        var r, allowed := ReservationAccess(id, tag, now);
        if connector.availability == Operative && connector.transactionID == 0 && allowed {
          assert Eligible(Contents(), id);
          return ReserveAccepted;
        }
      }
      forall c | c in connectors
        ensures Unusable(Contents(), now, tag, c, operative)
      {
        var k := IndexIn(order, connectors.Keys, c);
      }
      answer := if operative then ReserveOccupied else ReserveUnavailable;
      NoneUsable(Contents(), now, tag, operative);
    }

    method NamedAnswer(id: int) returns (answer: ReserveAnswer)
      requires Valid()
      ensures answer == NamedReserveAnswer(Contents(), id)
    {
      if id !in connectors {
        return ReserveRejected;
      }
      var connector := connectors[id];
      if connector.status == Faulted {
        return ReserveFaulted;
      }
      if connector.availability == Inoperative || connector.status == Unavailable {
        return ReserveUnavailable;
      }
      if connector.transactionID > 0 || connector.status == Preparing
         || connector.status == Charging || connector.status == Finishing {
        return ReserveOccupied;
      }
      var order := WalkOrder(reservations.Keys);
      for i := 0 to |order|
        invariant forall k :: 0 <= k < i ==> !Bound(reservations, order[k], id)
      {
        var r := order[i];
        if reservations[r].connectorID == id {
          return ReserveOccupied;
        }
      }
      forall r | r in reservations
        ensures !Bound(reservations, r, id)
      {
        var k := IndexIn(order, reservations.Keys, r);
      }
      return ReserveAccepted;
    }

    method Store(request: ReserveRequest)
      requires Valid() && request.expiry.Some?
      requires request.connectorId > 0 ==> request.connectorId in connectors
      modifies this`reservations, connectors.Values
      ensures Contents() == Stored(old(Contents()), request)
    {
      reservations := reservations[request.reservationId :=
        Reservation(request.connectorId, request.idTag, request.parentIdTag, request.expiry.value)];
      if request.connectorId > 0 {
        connectors[request.connectorId].status := Reserved;
        OneWritten(request.connectorId);
      }
    }

    /** The expiry is checked before the lock, at `checkedAt`. */
    method OnReserveNow(request: ReserveRequest, checkedAt: int, now: int) returns (answer: ReserveAnswer)
      requires Valid()
      modifies this`reservations, connectors.Values
      ensures Valid()
      ensures !FutureExpiry(request, checkedAt) ==> answer == ReserveRejected && Contents() == old(Contents())
      ensures FutureExpiry(request, checkedAt) ==>
        var base := Released(old(Contents()), request.reservationId, now);
        && ReserveMayAnswer(base, now, request, answer)
        && (answer == ReserveAccepted ==> request.connectorId > 0 ==> request.connectorId in base.connectors)
        && Contents() == if answer == ReserveAccepted then Stored(base, request) else base
    {
      if request.expiry.None? || request.expiry.value <= checkedAt {
        return ReserveRejected;
      }
      var found := Release(request.reservationId, now);
      ghost var base := Contents();
      if request.connectorId == 0 {
        answer := ZeroAnswer(request.idTag, now);
      } else {
        answer := NamedAnswer(request.connectorId);
      }
      if answer == ReserveAccepted {
        ReservingKeepsShape(opts.connectors, base, request, now);
        Store(request);
      }
    }

    method OnCancelReservation(reservationId: int, now: int) returns (accepted: bool)
      requires Valid()
      modifies this`reservations, connectors.Values
      ensures Valid() && Contents() == Released(old(Contents()), reservationId, now)
      ensures accepted <==> reservationId in old(reservations)
    {
      accepted := Release(reservationId, now);
    }

    /** One reservation of the sweep.  `lost` are the connectors that lost
        theirs so far: they all became Available. */
    method ExpireInTurn(
        r: int, now: int, ghost core: Core, ghost after: map<int, Connector>, ghost lost: set<int>)
      requires Apart() && r in reservations && StoreShape(core) && core.connectors.Keys == connectors.Keys
      requires r in core.reservations && reservations[r] == core.reservations[r]
      requires forall q :: q in reservations ==> q in core.reservations && reservations[q] == core.reservations[q]
      requires Blend(core.connectors, after, lost)
      requires forall c :: c in connectors ==> c > 0 && after[c] == core.connectors[c].(status := Available)
      modifies this`reservations, connectors.Values
      ensures reservations == old(reservations) - {r}
      ensures Blend(core.connectors, after, if core.reservations[r].connectorID > 0
                                            then lost + {core.reservations[r].connectorID} else lost)
    {
      var c := reservations[r].connectorID;
      reservations := reservations - {r};
      if c > 0 {
        assert core.connectors[c].availability == Operative;
        assert connectors[c].Value().availability == Operative;
        assert !LiveBound(reservations, c, now);
        var status := IdleStatusOf(c, now);
        connectors[c].status := status;
        forall d | d in connectors
          ensures connectors[d].Value() == if d in lost + {c} then after[d] else core.connectors[d]
        {
          assert d != c ==> connectors[d] != connectors[c];
        }
      }
    }

    method ExpireAll(at: int, now: int, ghost core: Core, ghost after: map<int, Connector>)
        returns (ghost lost: set<int>)
      requires Apart() && StoreShape(core) && core.connectors.Keys == connectors.Keys
      requires reservations == core.reservations && Blend(core.connectors, after, {})
      requires forall c :: c in connectors ==> c > 0 && after[c] == core.connectors[c].(status := Available)
      modifies this`reservations, connectors.Values
      ensures Blend(core.connectors, after, lost)
      ensures forall r :: r in reservations ==> r in core.reservations && reservations[r] == core.reservations[r]
      ensures forall r :: r in core.reservations ==> (r in reservations <==> !Dropped(core, r, at))
      ensures forall c :: c in lost ==> LosesReservation(core, c, at)
      ensures forall r :: r in core.reservations && Dropped(core, r, at) && core.reservations[r].connectorID > 0 ==>
        core.reservations[r].connectorID in lost
    {
      lost := {};
      var order := WalkOrder(reservations.Keys);
      for i := 0 to |order|
        invariant Blend(core.connectors, after, lost)
        invariant forall q :: q in reservations ==> q in core.reservations && reservations[q] == core.reservations[q]
        invariant forall k :: 0 <= k < |order| ==>
          (order[k] in reservations <==> k >= i || !Dropped(core, order[k], at))
        invariant forall c :: c in lost ==> LosesReservation(core, c, at)
        invariant forall k :: 0 <= k < i && Dropped(core, order[k], at) && core.reservations[order[k]].connectorID > 0 ==>
          core.reservations[order[k]].connectorID in lost
      {
        var r := order[i];
        assert r in reservations;
        if !Live(reservations[r], at) {
          ExpireInTurn(r, now, core, after, lost);
          if core.reservations[r].connectorID > 0 {
            assert LosesReservation(core, core.reservations[r].connectorID, at);
            lost := lost + {core.reservations[r].connectorID};
          }
        }
      }
      forall r | r in core.reservations
        ensures r in reservations <==> !Dropped(core, r, at)
        ensures Dropped(core, r, at) && core.reservations[r].connectorID > 0 ==> core.reservations[r].connectorID in lost
      {
        var k := IndexIn(order, core.reservations.Keys, r);
      }
    }

    /** The clock is read before the lock, at `at`. */
    method ExpireReservations(at: int, now: int)
      requires Valid()
      modifies this`reservations, connectors.Values
      ensures Valid() && Contents() == Swept(old(Contents()), at, now)
    {
      ghost var core := Contents();
      ghost var lost := ExpireAll(at, now, core, AllAvailable(core));
      SweptIs(core, at, now, reservations, lost);
      SweptKeepsShape(opts.connectors, core, at, now);
      SettledOn(core.connectors, AllAvailable(core), lost, Swept(core, at, now).connectors);
    }

    method AdvanceAll(order: seq<int>, ghost before: map<int, Connector>, ghost after: map<int, Connector>)
        returns (samples: seq<Sample>)
      requires Apart() && IsOrder(order, connectors.Keys) && Blend(before, after, {})
      requires forall k :: 0 <= k < |order| ==> order[k] in connectors
      requires forall c :: c in connectors ==> after[c] == before[c].(meter := before[c].meter + opts.meterStep)
      modifies connectors.Values
      ensures Contents().connectors == after
      ensures |samples| == |order| && forall k :: 0 <= k < |order| ==> samples[k] == SampleOf(after, order[k])
    {
      ghost var done: set<int> := {};
      samples := [];
      for i := 0 to |order|
        invariant Blend(before, after, done)
        invariant forall k :: 0 <= k < |order| ==> (order[k] in done <==> k < i)
        invariant |samples| == i && forall k :: 0 <= k < i ==> samples[k] == SampleOf(after, order[k])
      {
        var id := order[i];
        AdvanceInTurn(id, before, after, done);
        done := done + {id};
        assert connectors[id].Value() == after[id];
        samples := samples + [Sample(id, connectors[id].meter, connectors[id].transactionID)];
      }
      AllReached(order, connectors.Keys, done);
      Blended(before, after, done);
    }

    method AdvanceInTurn(
        id: int, ghost before: map<int, Connector>, ghost after: map<int, Connector>, ghost done: set<int>)
      requires Apart() && id in connectors && id !in done && Blend(before, after, done)
      requires after[id] == before[id].(meter := before[id].meter + opts.meterStep)
      modifies connectors[id]
      ensures Blend(before, after, done + {id})
    {
      connectors[id].meter := connectors[id].meter + opts.meterStep;
      forall c | c in connectors
        ensures connectors[c].Value() == if c in done + {id} then after[c] else before[c]
      {
        assert c != id ==> connectors[c] != connectors[id];
      }
    }

    method AdvanceRegisters() returns (order: seq<int>, samples: seq<Sample>)
      requires Valid()
      modifies connectors.Values
      ensures Valid() && Contents() == MeterTick(old(Contents()), opts.meterStep)
      ensures IsOrder(order, Contents().connectors.Keys) && |samples| == |order|
      ensures forall k :: 0 <= k < |order| ==>
        order[k] in Contents().connectors && samples[k] == SampleOf(Contents().connectors, order[k])
    {
      ghost var core := Contents();
      order := WalkOrder(connectors.Keys);
      MeterTickKeepsShape(opts.connectors, core, opts.meterStep);
      samples := AdvanceAll(order, core.connectors, MeterTick(core, opts.meterStep).connectors);
    }

    /** Advance every register by one step, and report them in order. */
    method OnMeterTick() returns (samples: seq<Sample>)
      requires Valid()
      modifies connectors.Values
      ensures Valid() && Contents() == MeterTick(old(Contents()), opts.meterStep)
      ensures samples == InOrder(Contents(), opts.connectors)
    {
      var order, collected := AdvanceRegisters();
      ghost var after := Contents().connectors;
      DistinctSamples(after, order, collected);
      samples := SortById(collected);
      SortedSamples(after, opts.connectors, order, collected, samples);
    }

    /** A triggered sample reads the register and leaves it alone. */
    method TriggeredSample(id: int) returns (sample: Option<Sample>)
      ensures sample == if id in connectors then Some(SampleOf(Contents().connectors, id)) else None
    {
      if id !in connectors {
        return None;
      }
      return Some(Sample(id, connectors[id].meter, connectors[id].transactionID));
    }

    /** A trigger samples one connector, or all of them in order when none is
        named; it fails on a connector that does not exist.  Each sample is a
        locked section of its own, `TriggeredSample`. */
    method TriggeredSamples(requested: Option<int>) returns (samples: seq<Sample>, ok: bool)
      requires Valid()
      ensures requested.None? || requested.value == 0 ==> ok && samples == InOrder(Contents(), opts.connectors)
      ensures requested.Some? && requested.value != 0 ==>
        && (ok <==> requested.value in connectors)
        && samples == if ok then [SampleOf(Contents().connectors, requested.value)] else []
    {
      samples, ok := [], true;
      if requested.Some? && requested.value != 0 {
        var sample := TriggeredSample(requested.value);
        if sample.None? {
          return [], false;
        }
        return [sample.value], true;
      }
      for id := 1 to opts.connectors + 1
        invariant samples == InOrder(Contents(), opts.connectors)[..id - 1]
      {
        assert id in Contents().connectors;
        var sample := TriggeredSample(id);
        samples := samples + [sample.value];
      }
    }
  }

  // ---------------------------------------------------------------------
  // Facts about values that the methods use
  // ---------------------------------------------------------------------

  ghost function AllAvailable(core: Core): map<int, Connector> {
    map c | c in core.connectors :: core.connectors[c].(status := Available)
  }

  ghost predicate Dropped(core: Core, r: int, at: int) {
    r in core.reservations && !Live(core.reservations[r], at)
  }

  /** A connector that loses its reservation is operative, and no other is
      bound to it: whatever the order of the sweep it becomes Available. */
  lemma SweptIs(core: Core, at: int, now: int, left: map<int, Reservation>, lost: set<int>)
    requires StoreShape(core)
    requires forall r :: r in left ==> r in core.reservations && left[r] == core.reservations[r]
    requires forall r :: r in core.reservations ==> (r in left <==> !Dropped(core, r, at))
    requires forall c :: c in lost ==> LosesReservation(core, c, at)
    requires forall r :: r in core.reservations && Dropped(core, r, at) && core.reservations[r].connectorID > 0 ==>
      core.reservations[r].connectorID in lost
    requires forall c :: c in core.connectors ==> c > 0
    ensures Swept(core, at, now).reservations == left
    ensures forall c :: c in core.connectors ==>
      Swept(core, at, now).connectors[c] == if c in lost then AllAvailable(core)[c] else core.connectors[c]
  {
    var swept := Swept(core, at, now);
    forall r
      ensures r in left <==> r in swept.reservations
    {
      assert r in core.reservations ==> (r in Expired(core, at) <==> Dropped(core, r, at));
    }
    assert left.Keys == swept.reservations.Keys;
    forall r | r in left
      ensures left[r] == swept.reservations[r]
    {}
    assert swept.reservations == left;
    forall c | c in core.connectors
      ensures swept.connectors[c] == if c in lost then AllAvailable(core)[c] else core.connectors[c]
    {
      if LosesReservation(core, c, at) {
        var r :| r in core.reservations && !Live(core.reservations[r], at) && core.reservations[r].connectorID == c;
        assert Dropped(core, r, at);
        assert !LiveBound(left, c, now);
      }
    }
  }

  /** A connector a connector-zero reservation cannot count on. */
  ghost predicate Unusable(core: Core, now: int, tag: string, c: int, operative: bool) {
    && (Eligible(core, c) ==> MayRefuse(core.reservations, now, c, tag))
    && (c in core.connectors && core.connectors[c].availability == Operative ==> operative)
  }

  lemma NoneUsable(core: Core, now: int, tag: string, operative: bool)
    requires forall c :: c in core.connectors ==> Unusable(core, now, tag, c, operative)
    requires operative ==> exists c :: c in core.connectors && core.connectors[c].availability == Operative
    ensures ZeroMayAnswer(core, now, tag, if operative then ReserveOccupied else ReserveUnavailable)
  {
    forall c | c in core.connectors
      ensures Eligible(core, c) ==> MayRefuse(core.reservations, now, c, tag)
      ensures core.connectors[c].availability == Operative ==> operative
    {
      assert Unusable(core, now, tag, c, operative);
    }
  }

  ghost predicate Bound(rs: map<int, Reservation>, r: int, id: int) {
    r in rs && rs[r].connectorID == id
  }

  lemma UnboundRest(rs: map<int, Reservation>, rest: map<int, Reservation>, id: int)
    requires forall r :: r in rest ==> r in rs && rest[r] == rs[r] && !Bound(rest, r, id)
    requires forall r :: r in rs && rs[r].connectorID != id ==> r in rest
    ensures rest == WithoutBound(rs, {id})
  {
    var unbound := WithoutBound(rs, {id});
    forall r
      ensures r in rest <==> r in unbound
    {
      if r in rest {
        assert !Bound(rest, r, id);
      }
      assert r in unbound ==> unbound[r].connectorID != id;
    }
    assert rest.Keys == unbound.Keys;
    forall r | r in rest
      ensures rest[r] == unbound[r]
    {}
    assert rest == unbound;
  }

  /** The connectors a ChangeAvailability leaves, one by one. */
  lemma ChangedConnectors(core: Core, connectorId: int, kind: Availability, now: int)
    ensures var after := ChangeAvailability(core, connectorId, kind, now).connectors;
      && after.Keys == core.connectors.Keys
      && (forall c :: c in core.connectors && c !in Covered(core, connectorId) ==> after[c] == core.connectors[c])
      && (forall c :: c in Covered(core, connectorId) ==>
            after[c] == SwitchedConnector(core.connectors[c], kind, LiveBound(core.reservations, c, now)))
  {}

  lemma UncoveredIsUnchanged(core: Core, connectorId: int, kind: Availability, now: int)
    requires connectorId != 0 && connectorId !in core.connectors
    ensures ChangeAvailability(core, connectorId, kind, now) == core
  {
    assert ChangeAvailability(core, connectorId, kind, now).connectors == core.connectors;
    assert WithoutBound(core.reservations, {}) == core.reservations;
  }

  /** Removing the reservations of other connectors does not matter to `id`. */
  lemma SwitchedAlike(
      connector: Connector, kind: Availability, rs: map<int, Reservation>, rs': map<int, Reservation>,
      done: set<int>, id: int, now: int)
    requires id !in done && rs' == if kind == Inoperative then WithoutBound(rs, done) else rs
    ensures SwitchedConnector(connector, kind, LiveBound(rs, id, now))
         == SwitchedConnector(connector, kind, LiveBound(rs', id, now))
  {}
}
