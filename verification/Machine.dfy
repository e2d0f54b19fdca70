/** The simulator with its goroutines: every method is one locked section of
    some goroutine, run on the connector objects, and extends a recorded run of
    `Protocol`.  So whatever the sections are called with and in whatever order,
    what holds of runs holds of the objects. */
module Machines {
  import opened Station
  import opened Access
  import Charging = ChargingProfiles
  import opened Protocol
  import opened Discipline
  import opened DisciplinedTheorems
  import opened Histories
  import opened Holding
  import opened Samples
  import opened Simulators
  import opened Theorems

  class Machine {
    const simulator: Simulator
    ghost var run: Run

    ghost function Now(): State
      requires run.states != []
      reads this
    {
      run.states[|run.states| - 1]
    }

    /** The recorded run is a run, and its last state is what the objects hold. */
    ghost predicate Valid()
      reads this, simulator, simulator.connectors.Values
    {
      && simulator.Valid()
      && IsRun(run) && run.opts == simulator.opts
      && Now().core == simulator.Contents()
    }

    constructor (opts: Options, now: int)
      ensures Valid() && run == Run(opts, [Init(opts, now)], [])
      ensures simulator.charging.profiles == map[]
    {
      simulator := new Simulator(opts);
      run := Run(opts, [Init(opts, now)], []);
    }

    /** One event more. */
    ghost predicate Took(before: Run, e: Event)
      reads this
    {
      && before.states != []
      && |run.states| == |before.states| + 1
      && run == Run(before.opts, before.states + [Now()], before.events + [e])
    }

    ghost method Record(e: Event, s': State)
      requires IsRun(run) && Next(run.opts, Now(), e, s')
      modifies this
      ensures IsRun(run) && Now() == s' && Took(old(run), e)
    {
      run := Run(run.opts, run.states + [s'], run.events + [e]);
      forall i | 0 <= i < |run.events|
        ensures StepAt(run, i)
      {
        if i < |run.events| - 1 {
          assert StepAt(old(run), i);
        }
      }
    }

    method ChangeAvailability(connectorId: int, kind: Availability, now: int) returns (answer: AvailabilityAnswer)
      requires Valid() && Now().now <= now
      modifies this, simulator, simulator.connectors.Values
      ensures Valid() && Took(old(run), Event(ChangeAvailabilityOf(connectorId, kind), now))
      ensures answer == AvailabilityAnswerFor(old(Now()).core, connectorId)
    {
      ghost var s := Now();
      answer := simulator.OnChangeAvailability(connectorId, kind, now);
      ghost var s' := WithCore(s, simulator.Contents()).(now := now);
      assert AvailabilityStep(s, connectorId, kind, now, s');
      Record(Event(ChangeAvailabilityOf(connectorId, kind), now), s');
    }

    method RemoteStart(
        ghost t: nat, requested: Option<int>, tag: string, attached: Option<AttachedProfile>, now: int)
        returns (choice: Choice)
      requires Valid() && Now().now <= now && t !in Now().starts
      modifies this, simulator.connectors.Values, simulator.charging
      ensures simulator.charging.profiles ==
        if choice.Chosen? && attached.Some?
        then old(simulator.charging.profiles)[attached.value.id :=
          Charging.Stored(choice.connectorID, attached.value.profile)]
        else old(simulator.charging.profiles)
      ensures Valid() && Took(old(run), Event(Action.RemoteStart(t, requested, tag, choice), now))
    {
      ghost var s := Now();
      choice := simulator.OnRemoteStartTransaction(requested, tag, attached, now);
      ghost var s' := s.(now := now);
      if choice.Chosen? {
        s' := s'.(
          core := simulator.Contents(),
          starts := s.starts[t := StartThread(choice.connectorID, tag, choice.reservationID,
                                              HoldFor(s, choice.reservationID), Begun)]);
        assert StartBegunStep(s, t, tag, choice.connectorID, choice.reservationID, now, s');
      }
      assert RemoteStartStep(s, t, requested, tag, choice, now, s');
      assert StartNext(s, Event(Action.RemoteStart(t, requested, tag, choice), now), s');
      Record(Event(Action.RemoteStart(t, requested, tag, choice), now), s');
    }

    method SetAuthorizeRemote(value: bool, now: int)
      requires Valid() && Now().now <= now
      modifies this, simulator
      ensures Valid() && Took(old(run), Event(Action.SetAuthorizeRemote(value), now))
    {
      ghost var s := Now();
      simulator.SetAuthorizeRemote(value);
      ghost var s' := s.(core := simulator.Contents(), now := now);
      assert ConfigurationStep(s, value, now, s');
      Record(Event(Action.SetAuthorizeRemote(value), now), s');
    }

    /** Goroutine `t` reads the flag; the answer decides whether it asks. */
    method StartReadsConfiguration(ghost t: nat, now: int) returns (asks: bool)
      requires Valid() && Now().now <= now
      requires StartAt(Now(), t) && Now().starts[t].pc.Begun?
      modifies this
      ensures Valid() && Took(old(run), Event(Action.StartReadsConfiguration(t), now))
      ensures asks == old(Now()).core.authorizeRemote == old(simulator.authorizeRemote)
      ensures t in Now().starts && Now().starts[t].pc == if asks then Authorizing else Cleared
    {
      ghost var s := Now();
      asks := simulator.authorizeRemote;
      ghost var s' := s.(starts := s.starts[t := s.starts[t].(pc := if asks then Authorizing else Cleared)], now := now);
      assert StartConfigurationStep(s, t, now, s');
      Record(Event(Action.StartReadsConfiguration(t), now), s');
    }

    /** Only a refusal takes the lock. */
    method AuthorizeAnswered(ghost t: nat, id: int, accepted: bool, now: int)
      requires Valid() && Now().now <= now
      requires StartAt(Now(), t) && Now().starts[t].pc.Authorizing? && Now().starts[t].connectorID == id
      modifies this, simulator.connectors.Values
      ensures Valid() && Took(old(run), Event(Action.AuthorizeAnswered(t, accepted), now))
    {
      ghost var s := Now();
      ghost var s' := s.(starts := s.starts[t := s.starts[t].(pc := Cleared)], now := now);
      if !accepted {
        simulator.RestoreConnectorAfterFailedStart(id, now);
        s' := FailedStart(s, t, now);
      }
      assert AuthorizeStep(s, t, accepted, now, s');
      assert StartNext(s, Event(Action.AuthorizeAnswered(t, accepted), now), s');
      Record(Event(Action.AuthorizeAnswered(t, accepted), now), s');
    }

    method StartReadsMeter(ghost t: nat, id: int, now: int) returns (meterStart: int)
      requires Valid() && Now().now <= now
      requires StartAt(Now(), t) && Now().starts[t].pc.Cleared? && Now().starts[t].connectorID == id
      modifies this
      ensures Valid() && Took(old(run), Event(Action.StartReadsMeter(t), now))
      ensures t in Now().starts && Now().starts[t].pc == StartSent(meterStart, Now().ticks)
    {
      ghost var s := Now();
      var tag;
      meterStart, tag := simulator.ReadConnector(id);
      ghost var s' := s.(starts := s.starts[t := s.starts[t].(pc := StartSent(meterStart, s.ticks))], now := now);
      assert StartMeterStep(s, t, now, s');
      Record(Event(Action.StartReadsMeter(t), now), s');
    }

    /** The answer to a StartTransaction: the code accepts a positive identifier. */
    method StartAnswered(ghost t: nat, id: int, reservationID: int, answer: StartAnswer, now: int)
      requires Valid() && Now().now <= now
      requires StartAt(Now(), t) && Now().starts[t].pc.StartSent?
      requires Now().starts[t].connectorID == id && Now().starts[t].reservationID == reservationID
      requires answer.StartAccepted? ==> answer.transactionID > 0 && answer.transactionID !in Now().confirmed
      modifies this, simulator`reservations, simulator.connectors.Values
      ensures Valid() && Took(old(run), Event(Action.StartAnswered(t, answer), now))
    {
      ghost var s := Now();
      ghost var s';
      if answer.StartAccepted? {
        simulator.AcceptTransaction(id, answer.transactionID, reservationID);
        s' := Accepted(s, t, answer.transactionID, now);
      } else {
        simulator.RestoreConnectorAfterFailedStart(id, now);
        s' := FailedStart(s, t, now);
      }
      AnswerIsAStep(s, t, answer, now);
      Record(Event(Action.StartAnswered(t, answer), now), s');
    }

    method RemoteStop(ghost t: nat, transactionId: int, now: int) returns (found: Option<int>)
      requires Valid() && Now().now <= now && t !in Now().stops
      modifies this, simulator.connectors.Values
      ensures Valid() && Took(old(run), Event(Action.RemoteStop(t, transactionId, found), now))
    {
      ghost var s := Now();
      found := simulator.OnRemoteStopTransaction(transactionId);
      ghost var s' := s.(now := now);
      if found.Some? {
        s' := Finished(s, t, transactionId, found.value, now);
        FoundIsAStep(s, t, transactionId, found.value, now);
      } else {
        assert StopNext(s, Event(Action.RemoteStop(t, transactionId, found), now), s');
      }
      Record(Event(Action.RemoteStop(t, transactionId, found), now), s');
    }

    method StopReadsMeter(ghost t: nat, id: int, now: int) returns (meterStop: int, tag: string)
      requires Valid() && Now().now <= now
      requires StopAt(Now(), t) && Now().stops[t].pc.StopBegun? && Now().stops[t].connectorID == id
      modifies this
      ensures Valid() && Took(old(run), Event(Action.StopReadsMeter(t), now))
      ensures t in Now().stops && Now().stops[t].pc == StopSent(meterStop, tag, Now().ticks)
    {
      ghost var s := Now();
      meterStop, tag := simulator.ReadConnector(id);
      ghost var s' := s.(stops := s.stops[t := s.stops[t].(pc := StopSent(meterStop, tag, s.ticks))], now := now);
      assert StopMeterStep(s, t, now, s');
      Record(Event(Action.StopReadsMeter(t), now), s');
    }

    /** Only a confirmed stop takes the lock. */
    method StopAnswered(ghost t: nat, id: int, confirmed: bool, now: int)
      requires Valid() && Now().now <= now
      requires StopAt(Now(), t) && Now().stops[t].pc.StopSent? && Now().stops[t].connectorID == id
      modifies this, simulator.connectors.Values
      ensures Valid() && Took(old(run), Event(Action.StopAnswered(t, confirmed), now))
    {
      ghost var s := Now();
      ghost var s' := s.(stops := s.stops - {t}, now := now);
      if confirmed {
        simulator.ConfirmStopTransaction(id, now);
        s' := s'.(core := simulator.Contents(), confirmedStops := s.confirmedStops + 1);
      }
      assert StopAnswerStep(s, t, confirmed, now, s');
      assert StopNext(s, Event(Action.StopAnswered(t, confirmed), now), s');
      Record(Event(Action.StopAnswered(t, confirmed), now), s');
    }

    method Reset(now: int)
      requires Valid() && Now().now <= now
      modifies this, simulator.connectors.Values
      ensures Valid() && Took(old(run), Event(Action.Reset, now))
    {
      ghost var s := Now();
      simulator.OnReset(now);
      ghost var s' := AfterReset(s, now);
      ResetIsAStep(run.opts, s, now);
      Record(Event(Action.Reset, now), s');
    }

    method ReserveNow(request: ReserveRequest, checkedAt: int, now: int) returns (answer: ReserveAnswer)
      requires Valid() && Now().now <= now && checkedAt <= now
      modifies this, simulator`reservations, simulator.connectors.Values
      ensures Valid() && Took(old(run), Event(Action.ReserveNow(request, checkedAt, answer), now))
    {
      ghost var s := Now();
      answer := simulator.OnReserveNow(request, checkedAt, now);
      ghost var s' := s.(now := now);
      if FutureExpiry(request, checkedAt) {
        ghost var base := Released(s.core, request.reservationId, now);
        s' := WithCore(s, base).(now := now);
        if answer == ReserveAccepted {
          s' := s'.(core := simulator.Contents(),
                    serials := s'.serials[request.reservationId := s.nextSerial],
                    nextSerial := s.nextSerial + 1);
          assert GrantedStep(s, base, request, now, s');
        }
      }
      assert ReserveStep(s, request, checkedAt, answer, now, s');
      Record(Event(Action.ReserveNow(request, checkedAt, answer), now), s');
    }

    method CancelReservation(reservationId: int, now: int) returns (accepted: bool)
      requires Valid() && Now().now <= now
      modifies this, simulator`reservations, simulator.connectors.Values
      ensures Valid() && Took(old(run), Event(Action.CancelReservation(reservationId), now))
      ensures accepted <==> reservationId in old(Now()).core.reservations
    {
      ghost var s := Now();
      accepted := simulator.OnCancelReservation(reservationId, now);
      ghost var s' := WithCore(s, simulator.Contents()).(now := now);
      assert CancelStep(s, reservationId, now, s');
      Record(Event(Action.CancelReservation(reservationId), now), s');
    }

    method Sweep(at: int, now: int)
      requires Valid() && Now().now <= now && at <= now
      modifies this, simulator`reservations, simulator.connectors.Values
      ensures Valid() && Took(old(run), Event(Action.Sweep(at), now))
    {
      ghost var s := Now();
      simulator.ExpireReservations(at, now);
      ghost var s' := WithCore(s, simulator.Contents()).(now := now);
      assert SweepStep(s, at, now, s');
      Record(Event(Action.Sweep(at), now), s');
    }

    method Tick(now: int) returns (samples: seq<Sample>)
      requires Valid() && Now().now <= now
      modifies this, simulator.connectors.Values
      ensures Valid() && Took(old(run), Event(Action.Tick, now))
      ensures |samples| == simulator.opts.connectors
      ensures forall k :: 0 <= k < |samples| ==> Reports(this, samples[k], k + 1)
    {
      ghost var s := Now();
      samples := simulator.OnMeterTick();
      ghost var s' := s.(core := simulator.Contents(), ticks := s.ticks + 1, now := now);
      assert TickStep(run.opts, s, now, s');
      Record(Event(Action.Tick, now), s');
      SamplesReport(this, samples);
    }

    method TriggerSample(id: int, now: int) returns (sample: Option<Sample>)
      requires Valid() && Now().now <= now
      modifies this
      ensures Valid() && Took(old(run), Event(Action.TriggeredSample(id), now))
      ensures Now().core == old(Now()).core
      ensures sample.Some? <==> id in simulator.connectors
      ensures sample.Some? ==> Reports(this, sample.value, id)
    {
      ghost var s := Now();
      sample := simulator.TriggeredSample(id);
      Record(Event(Action.TriggeredSample(id), now), s.(now := now));
      if id in simulator.connectors {
        ObjectsFollowTheRun(this, id, id);
        assert simulator.Contents().connectors[id] == simulator.connectors[id].Value();
      }
    }
  }

  /** What an accepted start leaves. */
  ghost function Accepted(s: State, t: nat, id: int, now: int): State
    requires StartAt(s, t) && s.starts[t].pc.StartSent?
  {
    var start := s.starts[t];
    WithCore(s, AcceptStart(s.core, start.connectorID, id, start.reservationID)).(
      starts := s.starts - {t},
      confirmed := s.confirmed[id :=
        Confirmed(start.connectorID, start.idTag, start.pc.meterStart, start.pc.readTick)],
      acceptedStarts := s.acceptedStarts + 1,
      backings := if start.hold.Some? then s.backings + [Backing(start.hold.value, id)] else s.backings,
      now := now)
  }

  /** What a RemoteStop that found connector `c` leaves. */
  ghost function Finished(s: State, t: nat, id: int, c: int, now: int): State
    requires c in s.core.connectors
  {
    s.(core := WithStatus(s.core, c, Finishing), stops := s.stops[t := StopThread(c, id, StopBegun)], now := now)
  }

  lemma FoundIsAStep(s: State, t: nat, id: int, c: int, now: int)
    requires t !in s.stops && c in s.core.connectors && s.core.connectors[c].transactionID == id
    ensures StopNext(s, Event(Action.RemoteStop(t, id, Some(c)), now), Finished(s, t, id, c, now))
  {}

  /** What a Reset leaves. */
  ghost function AfterReset(s: State, now: int): State {
    s.(core := ResetAll(s.core, now), clearedByReset := s.clearedByReset + |OpenConnectors(s.core)|, now := now)
  }

  lemma ResetIsAStep(opts: Options, s: State, now: int)
    ensures StationNext(opts, s, Event(Action.Reset, now), AfterReset(s, now))
  {}

  lemma AnswerIsAStep(s: State, t: nat, answer: StartAnswer, now: int)
    requires StartAt(s, t) && s.starts[t].pc.StartSent?
    requires answer.StartAccepted? ==> answer.transactionID > 0 && answer.transactionID !in s.confirmed
    ensures StartNext(s, Event(Action.StartAnswered(t, answer), now),
                      if answer.StartAccepted? then Accepted(s, t, answer.transactionID, now) else FailedStart(s, t, now))
  {}

  /** What every run guarantees, read off the objects: all meters show the start
      value and one step for each recorded tick, and no two connectors carry
      the same transaction. */
  lemma ObjectsFollowTheRun(m: Machine, c: int, d: int)
    requires m.Valid() && c in m.simulator.connectors && d in m.simulator.connectors
    ensures m.simulator.connectors[c].meter
         == m.run.opts.meterStart + Count(m.run.events, Ticks) * m.run.opts.meterStep
    ensures m.simulator.connectors[c].transactionID == m.simulator.connectors[d].transactionID != 0 ==> c == d
  {
    var last := |m.run.states| - 1;
    assert ConnectorAt(m.run, last, c) == m.simulator.connectors[c].Value();
    assert ConnectorAt(m.run, last, d) == m.simulator.connectors[d].Value();
    RegistersAgree(m.run, last, c);
    assert m.run.events[0..last] == m.run.events;
    if m.simulator.connectors[c].transactionID == m.simulator.connectors[d].transactionID != 0 {
      SearchIsOrderFree(m.run, last, c, d);
    }
  }

  /** The objects of a station that has taken no event yet. */
  lemma NewObjects(m: Machine, c: int)
    requires m.Valid() && m.run.events == []
    ensures c in m.simulator.connectors <==> 1 <= c <= m.run.opts.connectors
    ensures c in m.simulator.connectors ==>
      && m.simulator.connectors[c].availability == Operative && m.simulator.connectors[c].status == Available
      && m.simulator.connectors[c].transactionID == 0 && m.simulator.connectors[c].idTag == ""
      && m.simulator.connectors[c].meter == m.run.opts.meterStart
    ensures m.simulator.reservations == map[] && !m.simulator.authorizeRemote
  {
    StartInFields(m.run, c);
    assert m.Now().core.connectors.Keys == m.simulator.connectors.Keys;
    if c in m.simulator.connectors {
      assert m.Now().core.connectors[c] == m.simulator.connectors[c].Value();
    }
  }

  /** A sample reports the connector object: its register, which counts every
      tick so far, and the transaction it carries. */
  ghost predicate Reports(m: Machine, sample: Sample, c: int)
    reads m, m.simulator, m.simulator.connectors.Values
  {
    && c in m.simulator.connectors && sample.connectorID == c
    && sample.meter == m.run.opts.meterStart + Count(m.run.events, Ticks) * m.run.opts.meterStep
    && sample.transactionID == m.simulator.connectors[c].transactionID
  }

  lemma SampleReports(m: Machine, k: nat)
    requires m.Valid() && k < m.simulator.opts.connectors
    ensures |InOrder(m.Now().core, m.simulator.opts.connectors)| == m.simulator.opts.connectors
    ensures Reports(m, InOrder(m.Now().core, m.simulator.opts.connectors)[k], k + 1)
  {
    InOrderFields(m.Now().core, m.simulator.opts.connectors, k);
    assert k + 1 in m.simulator.connectors;
    ObjectsFollowTheRun(m, k + 1, k + 1);
    assert m.Now().core.connectors[k + 1] == m.simulator.connectors[k + 1].Value();
  }

  lemma SamplesReport(m: Machine, samples: seq<Sample>)
    requires m.Valid() && samples == InOrder(m.Now().core, m.simulator.opts.connectors)
    ensures |samples| == m.simulator.opts.connectors
    ensures forall k :: 0 <= k < |samples| ==> Reports(m, samples[k], k + 1)
  {
    forall k | 0 <= k < |samples|
      ensures Reports(m, samples[k], k + 1)
    {
      SampleReports(m, k);
    }
  }

  /** What disciplined runs guarantee, read off the objects: status,
      transaction, tag and goroutines of a connector object fit together. */
  lemma ObjectsFitTheGoroutines(m: Machine, c: int)
    requires m.Valid() && DisciplinedRun(m.run) && c in m.simulator.connectors
    ensures var s, connector := m.Now(), m.simulator.connectors[c];
      && (connector.status == Preparing <==> exists t :: t in s.starts && s.starts[t].connectorID == c)
      && (connector.transactionID > 0 <==> connector.status == Charging || connector.status == Finishing)
      && (IsIdle(connector.status) ==> connector.transactionID == 0 && connector.idTag == "")
      && (forall t :: t in s.starts && s.starts[t].connectorID == c ==>
            connector.transactionID == 0 && connector.idTag == s.starts[t].idTag)
      && (forall t :: t in s.stops && s.stops[t].connectorID == c ==>
            connector.status == Finishing && s.stops[t].transactionID == connector.transactionID)
  {
    var last := |m.run.states| - 1;
    assert ConnectorAt(m.run, last, c) == m.simulator.connectors[c].Value();
    ConnectorsFitTogether(m.run, last, c);
    AgreementInRun(m.run, last);
    assert forall t :: t in m.Now().starts ==> StartAgrees(m.Now(), t);
  }
}
