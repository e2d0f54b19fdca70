/** What the fields say about the past, in every run: a transaction is open, a
    connector out of service, a reservation stored, a goroutine where it is,
    exactly because of certain events before. */
module Histories {
  import opened Station
  import opened Access
  import opened Protocol
  import opened EveryRun
  import opened Effects

  /** A run of events from `j` on, up to but not including `i`. */
  ghost predicate Window(run: Run, j: int, i: int) {
    IsRun(run) && 0 <= j <= i <= |run.events|
  }

  // ---------------------------------------------------------------------
  // The start
  // ---------------------------------------------------------------------

  /** Connectors 1 to n, operative, Available, without a transaction, at the
      start register; no reservation, and no authorization of remote starts. */
  lemma StartInFields(run: Run, c: int)
    requires IsRun(run)
    ensures var core := run.states[0].core;
      && (c in core.connectors <==> 1 <= c <= run.opts.connectors)
      && (c in core.connectors ==>
            && core.connectors[c].availability == Operative && core.connectors[c].status == Available
            && core.connectors[c].transactionID == 0 && core.connectors[c].idTag == ""
            && core.connectors[c].meter == run.opts.meterStart)
      && core.reservations == map[] && !core.authorizeRemote
      && run.states[0].starts == map[] && run.states[0].stops == map[]
  {}

  // ---------------------------------------------------------------------
  // Transactions
  // ---------------------------------------------------------------------

  /** Event `j` opens transaction `id` on connector `c`. */
  ghost predicate Opens(run: Run, j: int, c: int, id: int)
    requires 0 <= j < |run.events| <= |run.states|
  {
    var a := run.events[j].action;
    a.StartAnswered? && a.answer == StartAccepted(id) && StartsOn(run.states[j], a.thread, c)
  }

  /** Event `j` replaces or ends whatever transaction connector `c` has. */
  ghost predicate Closes(run: Run, j: int, c: int)
    requires 0 <= j < |run.events| <= |run.states|
  {
    var a := run.events[j].action;
    || a.Reset?
    || (a.StopAnswered? && a.confirmed && StopsOn(run.states[j], a.thread, c))
    || (a.StartAnswered? && a.answer.StartAccepted? && StartsOn(run.states[j], a.thread, c))
  }

  ghost predicate OpenSince(run: Run, j: int, i: int, c: int, id: int)
    requires Window(run, j, i)
  {
    j < i && Opens(run, j, c, id) && forall m :: j < m < i ==> !Closes(run, m, c)
  }

  /** A connector has transaction `id` exactly if some start on it was accepted
      with `id` and since then no other was, no stop on it was confirmed, and
      there was no Reset. */
  lemma {:induction false} TransactionHistory(run: Run, i: nat, c: int, id: int)
    requires IsRun(run) && i < |run.states| && c in run.states[0].core.connectors && id > 0
    ensures c in run.states[i].core.connectors
    ensures run.states[i].core.connectors[c].transactionID == id <==>
      exists j :: 0 <= j < i && OpenSince(run, j, i, c, id)
  {
    if i == 0 {
      StartInFields(run, c);
    } else {
      TransactionHistory(run, i - 1, c, id);
      ConnectorEffect(run, i - 1, c);
      if Closes(run, i - 1, c) {
        if Opens(run, i - 1, c, id) {
          assert OpenSince(run, i - 1, i, c, id);
        }
        forall j | 0 <= j < i && OpenSince(run, j, i, c, id)
          ensures j == i - 1
        {}
      } else {
        forall j | 0 <= j < i
          ensures OpenSince(run, j, i, c, id) <==> j < i - 1 && OpenSince(run, j, i - 1, c, id)
        {
          assert j < i - 1 ==> Window(run, j, i - 1);
        }
        var before := i - 1;
        if j :| 0 <= j < before && OpenSince(run, j, before, c, id) {
          assert OpenSince(run, j, i, c, id);
        }
        if j :| 0 <= j < i && OpenSince(run, j, i, c, id) {
          assert OpenSince(run, j, before, c, id);
        }
      }
    }
  }

  // ---------------------------------------------------------------------
  // Availability
  // ---------------------------------------------------------------------

  ghost predicate Switches(run: Run, j: int, c: int)
    requires 0 <= j < |run.events|
  {
    var a := run.events[j].action;
    a.ChangeAvailabilityOf? && (a.connectorId == 0 || a.connectorId == c)
  }

  /** The last change that covers the connector, by its number or by 0, decides
      its availability; before the first it is operative. */
  lemma {:induction false} AvailabilityHistory(run: Run, i: nat, c: int)
    requires IsRun(run) && i < |run.states| && c in run.states[0].core.connectors
    ensures c in run.states[i].core.connectors
    ensures run.states[i].core.connectors[c].availability == Inoperative <==>
      exists j :: 0 <= j < i && Switches(run, j, c) && run.events[j].action.kind == Inoperative
        && forall m :: j < m < i ==> !Switches(run, m, c)
  {
    if i == 0 {
      StartInFields(run, c);
    } else {
      AvailabilityHistory(run, i - 1, c);
      ConnectorEffect(run, i - 1, c);
      if j :| 0 <= j < i && Switches(run, j, c) && run.events[j].action.kind == Inoperative
                && forall m :: j < m < i ==> !Switches(run, m, c) {
        assert Switches(run, i - 1, c) ==> j == i - 1;
      }
    }
  }

  // ---------------------------------------------------------------------
  // Reservations
  // ---------------------------------------------------------------------

  ghost predicate StoredSince(run: Run, j: int, i: int, r: int, stored: Reservation)
    requires Window(run, j, i)
  {
    && j < i && Adds(run.events[j], r, stored)
    && forall m :: j < m < i ==> !Removes(run.states[m], run.events[m], r, stored)
  }

  /** A reservation is stored exactly if some ReserveNow for it was accepted and
      since then it was not cancelled, not asked for again, not found expired by
      a sweep, its connector not made inoperative, and no start was accepted
      with it. */
  lemma {:induction false} ReservationHistory(run: Run, i: nat, r: int, stored: Reservation)
    requires IsRun(run) && i < |run.states|
    ensures (r in run.states[i].core.reservations && run.states[i].core.reservations[r] == stored) <==>
      exists j :: 0 <= j < i && StoredSince(run, j, i, r, stored)
  {
    if i > 0 {
      ReservationHistory(run, i - 1, r, stored);
      ReservationEffect(run, i - 1, r);
      assert Kept(run.states[i].core.reservations, r) == Some(stored) <==>
        r in run.states[i].core.reservations && run.states[i].core.reservations[r] == stored;
      assert Kept(run.states[i - 1].core.reservations, r) == Some(stored) <==>
        r in run.states[i - 1].core.reservations && run.states[i - 1].core.reservations[r] == stored;
      if Adds(run.events[i - 1], r, stored) {
        assert StoredSince(run, i - 1, i, r, stored);
      }
      forall j | 0 <= j < i - 1
        ensures StoredSince(run, j, i, r, stored) <==>
          StoredSince(run, j, i - 1, r, stored) && !Removes(run.states[i - 1], run.events[i - 1], r, stored)
      {
        assert Window(run, j, i - 1);
      }
      var before := i - 1;
      if j :| 0 <= j < before && StoredSince(run, j, before, r, stored) {
        assert StoredSince(run, j, i, r, stored) <==> !Removes(run.states[before], run.events[before], r, stored);
      }
      if j :| 0 <= j < i && StoredSince(run, j, i, r, stored) {
        assert j < before ==> StoredSince(run, j, before, r, stored);
      }
    }
  }

  // ---------------------------------------------------------------------
  // Goroutines
  // ---------------------------------------------------------------------

  /** What an event does to the program counter of start `t`. */
  ghost predicate Moves(s: State, e: Event, t: nat, before: StartPC, after: StartPC) {
    match e.action
    case StartReadsConfiguration(u) =>
      if u == t then before == Begun && after == (if s.core.authorizeRemote then Authorizing else Cleared)
      else after == before
    case AuthorizeAnswered(u, accepted) =>
      if u == t then accepted && before == Authorizing && after == Cleared else after == before
    case StartReadsMeter(u) => if u == t then before == Cleared && after.StartSent? else after == before
    case _ => after == before
  }

  ghost predicate SameLocals(a: StartThread, b: StartThread) {
    a.connectorID == b.connectorID && a.idTag == b.idTag && a.reservationID == b.reservationID
  }

  /** The event starts goroutine `t`. */
  ghost predicate Begins(e: Event, t: nat, thread: StartThread) {
    && e.action.RemoteStart? && e.action.thread == t
    && e.action.choice == Chosen(thread.connectorID, thread.reservationID)
    && e.action.idTag == thread.idTag
  }

  lemma StartThreadStep(s: State, e: Event, s': State, t: nat)
    requires StartNext(s, e, s') && t in s'.starts
    ensures t !in s.starts ==> Begins(e, t, s'.starts[t]) && s'.starts[t].pc == Begun
    ensures t in s.starts ==>
      && SameLocals(s.starts[t], s'.starts[t]) && Moves(s, e, t, s.starts[t].pc, s'.starts[t].pc)
      && !(e.action.RemoteStart? && e.action.thread == t)
  {}

  lemma StartThreadAt(run: Run, i: nat, t: nat)
    requires IsRun(run) && i < |run.events| && t in run.states[i + 1].starts
    ensures var s, e, s' := run.states[i], run.events[i], run.states[i + 1];
      && (t !in s.starts ==> Begins(e, t, s'.starts[t]) && s'.starts[t].pc == Begun)
      && (t in s.starts ==>
            && SameLocals(s.starts[t], s'.starts[t]) && Moves(s, e, t, s.starts[t].pc, s'.starts[t].pc))
  {
    var s, e, s' := run.states[i], run.events[i], run.states[i + 1];
    assert StepAt(run, i);
    if StartNext(s, e, s') {
      StartThreadStep(s, e, s', t);
    } else {
      assert s'.starts == s.starts;
    }
  }

  /** A start goroutine works for the connector, tag and reservation its
      request was accepted with. */
  lemma {:induction false} StartHistory(run: Run, i: nat, t: nat) returns (j: nat)
    requires IsRun(run) && i < |run.states| && t in run.states[i].starts
    ensures j < i && j < |run.events| && Begins(run.events[j], t, run.states[i].starts[t])
    ensures forall m :: j < m <= i ==> t in run.states[m].starts
  {
    if i == 0 {
      StartInFields(run, 0);
      assert false;
    } else {
      StartThreadAt(run, i - 1, t);
      if t !in run.states[i - 1].starts {
        j := i - 1;
      } else {
        j := StartHistory(run, i - 1, t);
      }
    }
  }

  /** The last read of the configuration by `t` before `i` is event `k`. */
  ghost predicate LastConfigurationRead(run: Run, k: int, i: int, t: nat)
    requires Window(run, k, i)
  {
    && k < i && run.events[k].action == StartReadsConfiguration(t)
    && forall m :: k < m < i ==> run.events[m].action != StartReadsConfiguration(t)
  }

  ghost predicate Authorized(run: Run, k: int, i: int, t: nat)
    requires Window(run, k, i)
  {
    exists j :: k < j < i && run.events[j].action == AuthorizeAnswered(t, true)
  }

  /** Where a goroutine is past its configuration read: it waits for an
      authorization only if the flag was set, and goes on only if it was not set
      or the authorization was granted. */
  lemma {:induction false} AfterConfigurationRead(run: Run, i: nat, t: nat) returns (k: nat)
    requires IsRun(run) && i < |run.states| && t in run.states[i].starts && run.states[i].starts[t].pc != Begun
    ensures k < i && LastConfigurationRead(run, k, i, t)
    ensures run.states[i].starts[t].pc == Authorizing ==>
      run.states[k].core.authorizeRemote && !Authorized(run, k, i, t)
    ensures run.states[i].starts[t].pc != Authorizing ==>
      (run.states[k].core.authorizeRemote <==> Authorized(run, k, i, t))
  {
    if i == 0 {
      StartInFields(run, 0);
      assert false;
    } else {
      var before := i - 1;
      StartThreadAt(run, before, t);
      if run.events[before].action == StartReadsConfiguration(t) {
        k := before;
      } else {
        k := AfterConfigurationRead(run, before, t);
        assert Window(run, k, i);
        if j :| k < j < before && run.events[j].action == AuthorizeAnswered(t, true) {
          assert Authorized(run, k, i, t);
        }
        if j :| k < j < i && run.events[j].action == AuthorizeAnswered(t, true) {
          assert j < before ==> Authorized(run, k, before, t);
        }
        if run.events[before].action == AuthorizeAnswered(t, true) {
          assert Authorized(run, k, i, t);
        }
      }
    }
  }

  /** A start asks for authorization exactly when AuthorizeRemoteTxRequests is
      set at its last configuration read: when it goes on to its StartTransaction
      it has been authorized since then if and only if the flag was set. */
  lemma AuthorizedIfAsked(run: Run, i: nat, t: nat) returns (k: nat)
    requires IsRun(run) && i < |run.events| && run.events[i].action == StartReadsMeter(t)
    ensures k < i && LastConfigurationRead(run, k, i, t)
    ensures run.states[k].core.authorizeRemote <==> Authorized(run, k, i, t)
  {
    assert StepAt(run, i);
    assert StartMeterStep(run.states[i], t, run.events[i].now, run.states[i + 1]);
    k := AfterConfigurationRead(run, i, t);
  }

  /** The flag is what the last SetAuthorizeRemote left, false before any. */
  lemma {:induction false} AuthorizeFlagHistory(run: Run, i: nat)
    requires IsRun(run) && i < |run.states|
    ensures run.states[i].core.authorizeRemote <==>
      exists j :: 0 <= j < i && run.events[j].action == SetAuthorizeRemote(true)
        && forall m :: j < m < i ==> !run.events[m].action.SetAuthorizeRemote?
  {
    if i == 0 {
      StartInFields(run, 0);
    } else {
      var before := i - 1;
      AuthorizeFlagHistory(run, before);
      FlagStep(run, before);
      if run.events[before].action.SetAuthorizeRemote? {
        if j :| 0 <= j < i && run.events[j].action == SetAuthorizeRemote(true)
                  && forall m :: j < m < i ==> !run.events[m].action.SetAuthorizeRemote? {
          assert j == before;
        }
      } else {
        if j :| 0 <= j < i && run.events[j].action == SetAuthorizeRemote(true)
                  && forall m :: j < m < i ==> !run.events[m].action.SetAuthorizeRemote? {
          assert j < before;
        }
      }
    }
  }

  lemma FlagStep(run: Run, i: nat)
    requires IsRun(run) && i < |run.events|
    ensures run.states[i + 1].core.authorizeRemote == if run.events[i].action.SetAuthorizeRemote?
      then run.events[i].action.value else run.states[i].core.authorizeRemote
  {
    var s, e, s' := run.states[i], run.events[i], run.states[i + 1];
    assert StepAt(run, i);
    if StartNext(s, e, s') {
      assert s'.core.authorizeRemote == s.core.authorizeRemote;
    } else if StopNext(s, e, s') {
      assert s'.core.authorizeRemote == s.core.authorizeRemote;
    } else if ReservationNext(s, e, s') {
      FlagKept(s, e, s');
    }
  }

  lemma FlagKept(s: State, e: Event, s': State)
    requires ReservationNext(s, e, s')
    ensures s'.core.authorizeRemote == s.core.authorizeRemote
  {
    if e.action.ReserveNow? {
      ReserveKeepsFlag(s, e.action.request, e.action.checkedAt, e.action.verdict, e.now, s');
    }
  }

  lemma ReserveKeepsFlag(
      s: State, request: ReserveRequest, checkedAt: int, verdict: ReserveAnswer, now: int, s': State)
    requires ReserveStep(s, request, checkedAt, verdict, now, s')
    ensures s'.core.authorizeRemote == s.core.authorizeRemote
  {}

  /** A stop goroutine works for the connector and the transaction its request
      found. */
  lemma {:induction false} StopHistory(run: Run, i: nat, t: nat) returns (j: nat)
    requires IsRun(run) && i < |run.states| && t in run.states[i].stops
    ensures j < i && j < |run.events|
    ensures run.events[j].action
      == RemoteStop(t, run.states[i].stops[t].transactionID, Some(run.states[i].stops[t].connectorID))
    ensures forall m :: j < m <= i ==> t in run.states[m].stops
  {
    if i == 0 {
      StartInFields(run, 0);
      assert false;
    } else {
      StopThreadAt(run, i - 1, t);
      if t !in run.states[i - 1].stops {
        j := i - 1;
      } else {
        j := StopHistory(run, i - 1, t);
      }
    }
  }

  lemma StopThreadAt(run: Run, i: nat, t: nat)
    requires IsRun(run) && i < |run.events| && t in run.states[i + 1].stops
    ensures var s, e, stop := run.states[i], run.events[i], run.states[i + 1].stops[t];
      if t in s.stops
      then stop.connectorID == s.stops[t].connectorID && stop.transactionID == s.stops[t].transactionID
      else e.action == RemoteStop(t, stop.transactionID, Some(stop.connectorID))
  {
    var s, e, s' := run.states[i], run.events[i], run.states[i + 1];
    assert StepAt(run, i);
    if StopNext(s, e, s') {
      StopThreadStep(s, e, s', t);
    } else {
      assert s'.stops == s.stops;
    }
  }

  lemma StopThreadStep(s: State, e: Event, s': State, t: nat)
    requires StopNext(s, e, s') && t in s'.stops
    ensures if t in s.stops
      then s'.stops[t].connectorID == s.stops[t].connectorID && s'.stops[t].transactionID == s.stops[t].transactionID
      else e.action == RemoteStop(t, s'.stops[t].transactionID, Some(s'.stops[t].connectorID))
  {}
}
