/** Charging profiles: which one is active, clearing, and composite schedules
    that do not share memory with the stored ones. */
module ChargingProfiles {
  import opened Station
  import opened Access
  import opened Walks

  datatype Purpose = ChargePointMaxProfile | TxDefaultProfile | TxProfile

  datatype RateUnit = Amperes | Watts

  datatype Period = Period(start: int, limit: real, phases: Option<int>)

  /** An optional value that the code shares by reference. */
  class Cell<T> {
    var value: T

    constructor (value: T)
      ensures this.value == value
    {
      this.value := value;
    }
  }

  class ChargingSchedule {
    var duration: Cell?<int>
    var startSchedule: Option<int>
    var unit: RateUnit
    var periods: array<Period>
    var minRate: Cell?<real>

    constructor (unit: RateUnit, periods: array<Period>)
      ensures this.unit == unit && this.periods == periods
      ensures duration == null && startSchedule == None && minRate == null
    {
      this.unit, this.periods := unit, periods;
      duration, startSchedule, minRate := null, None, null;
    }
  }

  datatype Profile = Profile(
    stackLevel: int,
    purpose: Purpose,
    transactionId: int,
    validFrom: Option<int>,
    validTo: Option<int>,
    schedule: ChargingSchedule?)

  /** Stored under its profile identifier. */
  datatype Stored = Stored(connectorID: int, profile: Profile)

  // ---------------------------------------------------------------------
  // The active profile
  // ---------------------------------------------------------------------

  predicate InForce(profile: Profile, now: int) {
    && (profile.validFrom.Some? ==> profile.validFrom.value <= now)
    && (profile.validTo.Some? ==> now < profile.validTo.value)
  }

  /** A TxProfile on a named connector needs its transaction. */
  predicate FitsTransaction(profile: Profile, connectors: map<int, Connector>, c: int) {
    profile.purpose == TxProfile && c > 0 ==>
      && c in connectors && connectors[c].transactionID != 0
      && (profile.transactionId == 0 || profile.transactionId == connectors[c].transactionID)
  }

  predicate Applies(profiles: map<int, Stored>, connectors: map<int, Connector>, now: int, c: int, k: int) {
    && k in profiles
    && (profiles[k].connectorID == 0 || profiles[k].connectorID == c)
    && InForce(profiles[k].profile, now)
    && FitsTransaction(profiles[k].profile, connectors, c)
  }

  function Level(profiles: map<int, Stored>, k: int): int
    requires k in profiles
  {
    profiles[k].profile.stackLevel
  }

  /** Profile `k` replaces the one selected so far. */
  predicate Beats(profiles: map<int, Stored>, k: int, selected: Option<int>)
    requires k in profiles && (selected.Some? ==> selected.value in profiles)
  {
    selected.None? || Level(profiles, k) > Level(profiles, selected.value)
  }

  function Scan(
      profiles: map<int, Stored>, order: seq<int>, connectors: map<int, Connector>, now: int, c: int,
      selected: Option<int>): (result: Option<int>)
    requires forall k :: k in order ==> k in profiles
    requires selected.Some? ==> selected.value in profiles
    ensures result.Some? ==> result.value in profiles
  {
    if order == [] then selected
    else
      var k := order[0];
      var better := if Applies(profiles, connectors, now, c, k) && Beats(profiles, k, selected) then Some(k) else selected;
      Scan(profiles, order[1..], connectors, now, c, better)
  }

  /** The result applies and no applicable profile is above it; nothing is
      selected only if nothing applies. */
  ghost predicate MaySelect(
      profiles: map<int, Stored>, connectors: map<int, Connector>, now: int, c: int, result: Option<int>) {
    match result
    case None => forall k :: !Applies(profiles, connectors, now, c, k)
    case Some(s) =>
      && Applies(profiles, connectors, now, c, s)
      && forall k :: Applies(profiles, connectors, now, c, k) ==> Level(profiles, k) <= Level(profiles, s)
  }

  lemma {:induction false} ScanFindsHighest(
      profiles: map<int, Stored>, order: seq<int>, connectors: map<int, Connector>, now: int, c: int,
      selected: Option<int>)
    requires forall k :: k in order ==> k in profiles
    requires selected.Some? ==> selected.value in profiles
    ensures var result := Scan(profiles, order, connectors, now, c, selected);
      && (result == selected
          || (result.Some? && result.value in order && Applies(profiles, connectors, now, c, result.value)))
      && (result.None? ==> forall k :: k in order ==> !Applies(profiles, connectors, now, c, k))
      && (result.Some? ==> forall k :: k in order && Applies(profiles, connectors, now, c, k) ==>
            Level(profiles, k) <= Level(profiles, result.value))
      && (selected.Some? ==> result.Some? && Level(profiles, selected.value) <= Level(profiles, result.value))
  {
    if order != [] {
      var k := order[0];
      assert order == [k] + order[1..];
      var better := if Applies(profiles, connectors, now, c, k) && Beats(profiles, k, selected) then Some(k) else selected;
      ScanFindsHighest(profiles, order[1..], connectors, now, c, better);
    }
  }

  /** Nothing below or level with the selected profile replaces it. */
  lemma {:induction false} ScanKeeps(
      profiles: map<int, Stored>, order: seq<int>, connectors: map<int, Connector>, now: int, c: int, s: int)
    requires forall k :: k in order ==> k in profiles
    requires s in profiles
    requires forall k :: Applies(profiles, connectors, now, c, k) ==> Level(profiles, k) <= Level(profiles, s)
    ensures Scan(profiles, order, connectors, now, c, Some(s)) == Some(s)
  {
    if order != [] {
      assert order == [order[0]] + order[1..];
      ScanKeeps(profiles, order[1..], connectors, now, c, s);
    }
  }

  /** What the scan can select, over all orders: exactly the applicable
      profiles of the highest level, and nothing when none applies. */
  lemma SelectionExact(
      profiles: map<int, Stored>, connectors: map<int, Connector>, now: int, c: int, result: Option<int>)
    ensures MaySelect(profiles, connectors, now, c, result) <==>
      exists order :: IsOrder(order, profiles.Keys) && Scan(profiles, order, connectors, now, c, None) == result
  {
    if MaySelect(profiles, connectors, now, c, result) {
      if result.Some? {
        var rest := SomeOrder(profiles.Keys - {result.value});
        var order := [result.value] + rest;
        assert order[1..] == rest;
        ScanKeeps(profiles, rest, connectors, now, c, result.value);
        assert IsOrder(order, profiles.Keys);
        assert Scan(profiles, order, connectors, now, c, None) == result;
      } else {
        var order := SomeOrder(profiles.Keys);
        ScanFindsHighest(profiles, order, connectors, now, c, None);
      }
    }
    forall order | IsOrder(order, profiles.Keys) && Scan(profiles, order, connectors, now, c, None) == result
      ensures MaySelect(profiles, connectors, now, c, result)
    {
      ScanFindsHighest(profiles, order, connectors, now, c, None);
    }
  }

  /** Profile `k` applies and no other applicable profile reaches its level. */
  ghost predicate AloneOnTop(profiles: map<int, Stored>, connectors: map<int, Connector>, now: int, c: int, k: int) {
    && Applies(profiles, connectors, now, c, k)
    && forall l :: Applies(profiles, connectors, now, c, l) && l != k ==> Level(profiles, l) < Level(profiles, k)
  }

  /** A selected profile is the only one any walk can select exactly when it is
      alone on the highest level. */
  lemma SelectionUnique(profiles: map<int, Stored>, connectors: map<int, Connector>, now: int, c: int, s: int)
    requires MaySelect(profiles, connectors, now, c, Some(s))
    ensures AloneOnTop(profiles, connectors, now, c, s) <==>
      forall other :: MaySelect(profiles, connectors, now, c, other) ==> other == Some(s)
  {
    if !AloneOnTop(profiles, connectors, now, c, s) {
      var l :| Applies(profiles, connectors, now, c, l) && l != s && Level(profiles, l) >= Level(profiles, s);
      assert MaySelect(profiles, connectors, now, c, Some(l));
    }
  }

  /** On a named connector a TxProfile is only selected with an open
      transaction, its own or any. */
  lemma TxProfileHasTransaction(
      profiles: map<int, Stored>, connectors: map<int, Connector>, now: int, c: int, s: int)
    requires MaySelect(profiles, connectors, now, c, Some(s)) && c > 0 && profiles[s].profile.purpose == TxProfile
    ensures c in connectors && connectors[c].transactionID != 0
    ensures profiles[s].profile.transactionId == 0 || profiles[s].profile.transactionId == connectors[c].transactionID
  {}

  /** In the fields of the stored profiles: profile `k` is for this connector or
      for all, begun and not over, and a TxProfile on a named connector has its
      transaction. */
  ghost predicate Usable(profiles: map<int, Stored>, connectors: map<int, Connector>, now: int, c: int, k: int) {
    && k in profiles
    && (profiles[k].connectorID == 0 || profiles[k].connectorID == c)
    && var profile := profiles[k].profile;
       && (profile.validFrom == None || profile.validFrom.value <= now)
       && (profile.validTo == None || now < profile.validTo.value)
       && (profile.purpose != TxProfile || c <= 0
           || (&& c in connectors && connectors[c].transactionID != 0
               && (profile.transactionId == 0 || profile.transactionId == connectors[c].transactionID)))
  }

  /** The walk can select exactly the usable profiles that no usable one has a
      higher stack level than, and selects nothing exactly if none is usable. */
  lemma SelectionInFields(
      profiles: map<int, Stored>, connectors: map<int, Connector>, now: int, c: int, result: Option<int>)
    ensures MaySelect(profiles, connectors, now, c, result) <==>
      match result
      case None => forall k :: !Usable(profiles, connectors, now, c, k)
      case Some(s) =>
        && Usable(profiles, connectors, now, c, s)
        && forall k :: Usable(profiles, connectors, now, c, k) ==>
             profiles[k].profile.stackLevel <= profiles[s].profile.stackLevel
  {
    forall k
      ensures Usable(profiles, connectors, now, c, k) <==> Applies(profiles, connectors, now, c, k)
    {}
  }

  /** A profile is never selected before its validFrom, nor at or after its
      validTo. */
  lemma SelectedIsInForce(
      profiles: map<int, Stored>, connectors: map<int, Connector>, now: int, c: int, s: int)
    requires MaySelect(profiles, connectors, now, c, Some(s))
    ensures s in profiles
    ensures profiles[s].profile.validFrom.Some? ==> profiles[s].profile.validFrom.value <= now
    ensures profiles[s].profile.validTo.Some? ==> now < profiles[s].profile.validTo.value
  {
    SelectionInFields(profiles, connectors, now, c, Some(s));
  }

  // ---------------------------------------------------------------------
  // Clearing
  // ---------------------------------------------------------------------

  datatype ClearRequest = ClearRequest(
    id: Option<int>, connectorId: Option<int>, stackLevel: Option<int>, purpose: Option<Purpose>)

  predicate MatchesClear(k: int, stored: Stored, request: ClearRequest) {
    && (request.id.Some? ==> k == request.id.value)
    && (request.connectorId.Some? ==> stored.connectorID == request.connectorId.value)
    && (request.stackLevel.Some? ==> stored.profile.stackLevel == request.stackLevel.value)
    && (request.purpose.Some? ==> stored.profile.purpose == request.purpose.value)
  }

  predicate Clears(profiles: map<int, Stored>, request: ClearRequest, k: int) {
    k in profiles && MatchesClear(k, profiles[k], request)
  }

  function Cleared(profiles: map<int, Stored>, request: ClearRequest): map<int, Stored> {
    map k | k in profiles && !MatchesClear(k, profiles[k], request) :: profiles[k]
  }

  /** What a Clear leaves: exactly the profiles that differ from the request in
      identifier, connector, stack level or purpose, where it gives them. */
  lemma ClearedInFields(profiles: map<int, Stored>, request: ClearRequest, k: int)
    ensures k in Cleared(profiles, request) <==>
      && k in profiles
      && (|| (request.id.Some? && request.id.value != k)
          || (request.connectorId.Some? && request.connectorId.value != profiles[k].connectorID)
          || (request.stackLevel.Some? && request.stackLevel.value != profiles[k].profile.stackLevel)
          || (request.purpose.Some? && request.purpose.value != profiles[k].profile.purpose))
    ensures k in Cleared(profiles, request) ==> Cleared(profiles, request)[k] == profiles[k]
  {}

  /** Clearing again removes nothing. */
  lemma ClearingTwice(profiles: map<int, Stored>, request: ClearRequest)
    ensures Cleared(Cleared(profiles, request), request) == Cleared(profiles, request)
    ensures forall k :: !Clears(Cleared(profiles, request), request, k)
  {}

  /** Clearing never makes a higher level active, and makes nothing active
      where nothing was. */
  lemma ClearingNeverRaises(
      profiles: map<int, Stored>, request: ClearRequest, connectors: map<int, Connector>, now: int, c: int,
      before: Option<int>, after: Option<int>)
    requires MaySelect(profiles, connectors, now, c, before)
    requires MaySelect(Cleared(profiles, request), connectors, now, c, after)
    ensures after.Some? ==> before.Some? && Level(Cleared(profiles, request), after.value) <= Level(profiles, before.value)
    ensures before.Some? && !Clears(profiles, request, before.value) ==>
      after.Some? && Level(Cleared(profiles, request), after.value) == Level(profiles, before.value)
  {
    var left := Cleared(profiles, request);
    if after.Some? {
      assert Applies(profiles, connectors, now, c, after.value);
    }
    if before.Some? && !Clears(profiles, request, before.value) {
      assert Applies(left, connectors, now, c, before.value);
    }
  }

  predicate Admitted(ids: set<int>, connectorId: int, profile: Option<Profile>) {
    profile.Some? && (connectorId > 0 ==> connectorId in ids)
  }

  class ProfileStore {
    var profiles: map<int, Stored>

    constructor ()
      ensures profiles == map[]
    {
      profiles := map[];
    }

    /** The first locked section of a SetChargingProfile looks for the
        connector, and only if one is named. */
    method AdmitProfile(connectorId: int, profile: Option<Profile>, connectors: map<int, Connector>)
        returns (accepted: bool)
      ensures accepted <==> Admitted(connectors.Keys, connectorId, profile)
      ensures accepted <==> profile.Some? && (connectorId <= 0 || connectorId in connectors)
    {
      if profile.None? {
        return false;
      }
      if connectorId > 0 {
        var found := connectorId in connectors;
        return found;
      }
      return true;
    }

    /** The second section, if the first accepted; a remote start does the same
        with the profile that comes with it. */
    method StoreProfile(id: int, connectorId: int, profile: Profile)
      modifies this
      ensures profiles == old(profiles)[id := Stored(connectorId, profile)]
    {
      profiles := profiles[id := Stored(connectorId, profile)];
    }

    /** Accepted is answered exactly when something was removed. */
    method OnClearChargingProfile(request: ClearRequest) returns (removed: nat)
      modifies this
      ensures profiles == Cleared(old(profiles), request)
      ensures removed + |profiles| == |old(profiles)|
      ensures removed > 0 <==> exists k :: Clears(old(profiles), request, k)
    {
      ghost var before := profiles;
      removed := 0;
      var order := WalkOrder(profiles.Keys);
      for i := 0 to |order|
        invariant removed + |profiles| == |before|
        invariant forall k :: k in profiles ==> k in before && profiles[k] == before[k]
        invariant forall k :: 0 <= k < |order| ==>
          (order[k] in profiles <==> k >= i || !Clears(before, request, order[k]))
        invariant removed > 0 ==> exists k :: Clears(before, request, k)
      {
        var id := order[i];
        assert id in profiles;
        if MatchesClear(id, profiles[id], request) {
          assert Clears(before, request, id);
          assert |profiles - {id}| == |profiles| - 1 by { assert (profiles - {id}).Keys == profiles.Keys - {id}; }
          profiles := profiles - {id};
          removed := removed + 1;
        }
      }
      forall k | k in before
        ensures k in profiles <==> !Clears(before, request, k)
      {
        var j := IndexIn(order, before.Keys, k);
      }
      ClearedIs(before, profiles, request);
      if k :| Clears(before, request, k) {
        assert profiles.Keys <= before.Keys - {k};
        SmallerKeys(profiles, before, k);
      }
    }

    method ActiveChargingProfile(c: int, connectors: map<int, Connector>, now: int) returns (selected: Option<int>)
      ensures MaySelect(profiles, connectors, now, c, selected)
    {
      selected := None;
      var order := WalkOrder(profiles.Keys);
      for i := 0 to |order|
        invariant selected.Some? ==> selected.value in profiles
        invariant Scan(profiles, order, connectors, now, c, None)
               == Scan(profiles, order[i..], connectors, now, c, selected)
      {
        var k := order[i];
        assert order[i..][0] == k && order[i..][1..] == order[i + 1..];
        if Applies(profiles, connectors, now, c, k) && Beats(profiles, k, selected) {
          selected := Some(k);
        }
      }
      assert order[|order|..] == [];
      SelectionExact(profiles, connectors, now, c, selected);
    }

    /** The answer is a schedule of its own: the method may write to nothing
        that existed before, so every stored schedule is left as it was.
        `selected` is the profile that was active. */
    method OnGetCompositeSchedule(
        c: int, duration: int, unit: Option<RateUnit>, connectors: map<int, Connector>, now: int)
        returns (schedule: ChargingSchedule?, ghost selected: Option<int>)
      ensures c > 0 && c !in connectors ==> schedule == null && selected == None
      ensures !(c > 0 && c !in connectors) ==> MaySelect(profiles, connectors, now, c, selected)
      ensures schedule == null <==>
        || (c > 0 && c !in connectors)
        || (selected.Some? && selected.value in profiles && profiles[selected.value].profile.schedule != null
            && unit.Some? && unit.value != profiles[selected.value].profile.schedule.unit)
      ensures schedule != null ==>
        && fresh(schedule) && fresh(schedule.periods)
        && schedule.duration != null && fresh(schedule.duration) && schedule.duration.value == duration
        && schedule.startSchedule == Some(now)
        && (schedule.minRate != null ==> fresh(schedule.minRate))
      ensures schedule != null && selected.Some? && selected.value in profiles ==>
        var source := profiles[selected.value].profile.schedule;
        source != null ==>
          && schedule.periods[..] == source.periods[..] && schedule.unit == source.unit
          && (schedule.minRate == null <==> source.minRate == null)
          && (schedule.minRate != null ==> schedule.minRate.value == source.minRate.value)
      ensures
        schedule != null && (selected.None? || selected.value !in profiles
                             || profiles[selected.value].profile.schedule == null) ==>
        && schedule.unit == (if unit == Some(Watts) then Watts else Amperes)
        && schedule.minRate == null
        && schedule.periods[..] == [Period(0, if schedule.unit == Watts then 22000.0 else 32.0, None)]
    {
      if c > 0 && c !in connectors {
        return null, None;
      }
      var active := ActiveChargingProfile(c, connectors, now);
      selected := active;
      if active.Some? && profiles[active.value].profile.schedule != null {
        var source := profiles[active.value].profile.schedule;
        if unit.Some? && source.unit != unit.value {
          return null, active;
        }
        schedule := CloneChargingSchedule(source);
      } else {
        var effective := if unit.Some? then unit.value else Amperes;
        var limit := if effective == Watts then 22000.0 else 32.0;
        var periods := new Period[1](_ => Period(0, limit, None));
        schedule := new ChargingSchedule(effective, periods);
      }
      schedule.duration := new Cell<int>(duration);
      schedule.startSchedule := Some(now);
    }
  }

  /** A copy that shares no memory with its source; no schedule is copied to
      no schedule. */
  method CloneChargingSchedule(source: ChargingSchedule?) returns (copy: ChargingSchedule?)
    ensures copy == null <==> source == null
    ensures copy != null ==>
      && fresh(copy) && fresh(copy.periods)
      && copy.periods[..] == source.periods[..]
      && copy.unit == source.unit && copy.startSchedule == source.startSchedule
      && (copy.duration == null <==> source.duration == null)
      && (copy.duration != null ==> fresh(copy.duration) && copy.duration.value == source.duration.value)
      && (copy.minRate == null <==> source.minRate == null)
      && (copy.minRate != null ==> fresh(copy.minRate) && copy.minRate.value == source.minRate.value)
  {
    if source == null {
      return null;
    }
    var periods := new Period[source.periods.Length](i requires 0 <= i < source.periods.Length
      reads source, source.periods => source.periods[i]);
    copy := new ChargingSchedule(source.unit, periods);
    copy.startSchedule := source.startSchedule;
    if source.duration != null {
      copy.duration := new Cell<int>(source.duration.value);
    }
    if source.minRate != null {
      copy.minRate := new Cell<real>(source.minRate.value);
    }
  }

  lemma ClearedIs(before: map<int, Stored>, left: map<int, Stored>, request: ClearRequest)
    requires forall k :: k in left ==> k in before && left[k] == before[k]
    requires forall k :: k in before ==> (k in left <==> !Clears(before, request, k))
    ensures left == Cleared(before, request)
  {
    var cleared := Cleared(before, request);
    forall k
      ensures k in left <==> k in cleared
    {
      assert k in before ==> (Clears(before, request, k) <==> MatchesClear(k, before[k], request));
    }
    assert left.Keys == cleared.Keys;
    forall k | k in left
      ensures left[k] == cleared[k]
    {}
    assert left == cleared;
  }

  lemma SmallerKeys(left: map<int, Stored>, before: map<int, Stored>, k: int)
    requires k in before && left.Keys <= before.Keys - {k}
    ensures |left| < |before|
  {
    SubsetSize(left.Keys, before.Keys - {k});
    assert |left.Keys| == |left| && |before.Keys| == |before|;
  }

  lemma SubsetSize(a: set<int>, b: set<int>)
    requires a <= b
    ensures |a| <= |b|
  {
    assert b == a + (b - a);
  }

  // ---------------------------------------------------------------------
  // Setting a profile
  // ---------------------------------------------------------------------

  /** A stored profile that applies is selected, unless another one that
      applies is at least as high. */
  lemma SetThenSelected(
      profiles: map<int, Stored>, id: int, stored: Stored, connectors: map<int, Connector>, now: int, c: int,
      result: Option<int>)
    requires var after := profiles[id := stored];
      Applies(after, connectors, now, c, id) && MaySelect(after, connectors, now, c, result)
    ensures var after := profiles[id := stored];
      && result.Some? && Level(after, result.value) >= stored.profile.stackLevel
      && (result != Some(id) ==>
            exists k :: k != id && Applies(profiles, connectors, now, c, k)
              && Level(profiles, k) >= stored.profile.stackLevel)
  {
    var after := profiles[id := stored];
    assert Level(after, id) == stored.profile.stackLevel;
    if result != Some(id) {
      assert Applies(profiles, connectors, now, c, result.value);
    }
  }

  /** Clearing by its identifier takes back exactly what was set. */
  lemma SetThenCleared(profiles: map<int, Stored>, id: int, stored: Stored)
    ensures Cleared(profiles[id := stored], ClearRequest(Some(id), None, None, None)) == profiles - {id}
  {}

  // ---------------------------------------------------------------------
  // Interleaved requests
  // ---------------------------------------------------------------------

  /** An admitted profile that is not stored yet. */
  datatype Pending = Pending(id: int, connectorId: int, profile: Profile)

  datatype State = State(profiles: map<int, Stored>, pending: map<nat, Pending>)

  datatype Event =
    | Admits(thread: nat, id: int, connectorId: int, requested: Option<Profile>, accepted: bool)
    | Stores(thread: nat)
    | Attaches(id: int, connectorId: int, profile: Profile)
    | ClearsMatching(request: ClearRequest)

  ghost predicate AdmitStep(
      ids: set<int>, s: State, t: nat, id: int, connectorId: int, profile: Option<Profile>, accepted: bool, s': State) {
    && t !in s.pending
    && (accepted <==> Admitted(ids, connectorId, profile))
    && s' == if accepted then s.(pending := s.pending[t := Pending(id, connectorId, profile.value)]) else s
  }

  /** `ids` are the connectors, which do not change.  A remote start attaches
      its profile to the connector it chose. */
  ghost predicate Next(ids: set<int>, s: State, e: Event, s': State) {
    match e
    case Admits(t, id, connectorId, profile, accepted) => AdmitStep(ids, s, t, id, connectorId, profile, accepted, s')
    case Stores(t) =>
      && t in s.pending
      && s' == State(s.profiles[s.pending[t].id := Stored(s.pending[t].connectorId, s.pending[t].profile)],
                     s.pending - {t})
    case Attaches(id, connectorId, profile) =>
      connectorId in ids && s' == s.(profiles := s.profiles[id := Stored(connectorId, profile)])
    case ClearsMatching(request) => s' == s.(profiles := Cleared(s.profiles, request))
  }

  datatype Run = Run(ids: set<int>, states: seq<State>, events: seq<Event>)

  ghost predicate StepAt(run: Run, i: int)
    requires 0 <= i < |run.events| && |run.states| == |run.events| + 1
  {
    Next(run.ids, run.states[i], run.events[i], run.states[i + 1])
  }

  ghost predicate IsRun(run: Run) {
    && |run.states| == |run.events| + 1
    && run.states[0] == State(map[], map[])
    && forall i :: 0 <= i < |run.events| ==> StepAt(run, i)
  }

  ghost predicate NamesConnectors(ids: set<int>, s: State) {
    && (forall k :: k in s.profiles && s.profiles[k].connectorID > 0 ==> s.profiles[k].connectorID in ids)
    && (forall t :: t in s.pending && s.pending[t].connectorId > 0 ==> s.pending[t].connectorId in ids)
  }

  /** Every stored profile for a connector is for one that exists, although
      the check and the store are two sections. */
  lemma {:induction false} ProfilesNameConnectors(run: Run, i: nat)
    requires IsRun(run) && i < |run.states|
    ensures NamesConnectors(run.ids, run.states[i])
  {
    if i > 0 {
      ProfilesNameConnectors(run, i - 1);
      assert StepAt(run, i - 1);
    }
  }

  /** The identifier an event stores a profile under, and what it stores. */
  ghost predicate Puts(s: State, e: Event, k: int, stored: Stored) {
    match e
    case Stores(t) =>
      t in s.pending && s.pending[t].id == k && stored == Stored(s.pending[t].connectorId, s.pending[t].profile)
    case Attaches(id, connectorId, profile) => id == k && stored == Stored(connectorId, profile)
    case _ => false
  }

  /** The event stores another profile under `k`, or clears the one there. */
  ghost predicate Disturbs(s: State, e: Event, k: int) {
    || (e.Stores? && e.thread in s.pending && s.pending[e.thread].id == k)
    || (e.Attaches? && e.id == k)
    || (e.ClearsMatching? && Clears(s.profiles, e.request, k))
  }

  ghost predicate Undisturbed(run: Run, j: nat, i: nat, k: int)
    requires i <= |run.events| < |run.states|
  {
    forall m :: j <= m < i ==> !Disturbs(run.states[m], run.events[m], k)
  }

  /** What is stored under an identifier was put there by an earlier section,
      and nothing has stored under it or cleared it since: neither a Clear that
      does not match nor any request admitted in between matters. */
  lemma {:induction false} StoredComesFrom(run: Run, i: nat, k: int) returns (j: nat)
    requires IsRun(run) && i < |run.states| && k in run.states[i].profiles
    ensures j < i && Puts(run.states[j], run.events[j], k, run.states[i].profiles[k])
    ensures Undisturbed(run, j + 1, i, k)
  {
    if i > 0 {
      assert StepAt(run, i - 1);
      var s, e, s' := run.states[i - 1], run.events[i - 1], run.states[i];
      if Puts(s, e, k, s'.profiles[k]) {
        j := i - 1;
      } else {
        assert k in s.profiles && s.profiles[k] == s'.profiles[k];
        assert !Disturbs(s, e, k);
        j := StoredComesFrom(run, i - 1, k);
      }
    }
  }

  /** And what was put there is stored as long as nothing disturbs it. */
  lemma {:induction false} StoredStays(run: Run, j: nat, i: nat, k: int, stored: Stored)
    requires IsRun(run) && j < i < |run.states| && Puts(run.states[j], run.events[j], k, stored)
    requires Undisturbed(run, j + 1, i, k)
    ensures k in run.states[i].profiles && run.states[i].profiles[k] == stored
    decreases i
  {
    assert StepAt(run, i - 1);
    if j + 1 < i {
      assert Undisturbed(run, j + 1, i - 1, k) && !Disturbs(run.states[i - 1], run.events[i - 1], k);
      StoredStays(run, j, i - 1, k, stored);
    }
  }
}
