/** Which reservation, if any, lets a tag use a connector, and which connector
    a remote start picks.  The code walks a Go map, so every answer is stated
    for every order of the walk. */
module Access {
  import opened Station

  predicate Covers(r: Reservation, c: int) {
    r.connectorID == 0 || r.connectorID == c
  }

  predicate Matches(r: Reservation, tag: string) {
    tag == r.idTag || (r.parentIDTag != "" && tag == r.parentIDTag)
  }

  // ---------------------------------------------------------------------
  // The walk in a given order
  // ---------------------------------------------------------------------

  /** `order` lists every key once: one order in which a map can be walked. */
  ghost predicate IsOrder(order: seq<int>, keys: set<int>) {
    && (forall k :: k in order <==> k in keys)
    && (forall i, j :: 0 <= i < j < |order| ==> order[i] != order[j])
  }

  /** The walk of `rs` for connector `c`, with `matched` the connector-zero
      match seen so far. */
  function Walk(rs: map<int, Reservation>, order: seq<int>, now: int, c: int, tag: string, matched: int): (int, bool)
    requires forall k :: k in order ==> k in rs
  {
    if order == [] then (matched, true)
    else
      var k := order[0];
      var current := rs[k];
      if !Live(current, now) || !Covers(current, c) then Walk(rs, order[1..], now, c, tag, matched)
      else if current.connectorID == c then if Matches(current, tag) then (k, true) else (0, false)
      else if Matches(current, tag) then Walk(rs, order[1..], now, c, tag, k)
      else (0, false)
  }

  // ---------------------------------------------------------------------
  // The same answers, without an order
  // ---------------------------------------------------------------------

  /** Reservation `k` is live and covers connector `c`. */
  predicate Counts(rs: map<int, Reservation>, k: int, now: int, c: int) {
    k in rs && Live(rs[k], now) && Covers(rs[k], c)
  }

  ghost predicate MayRefuse(rs: map<int, Reservation>, now: int, c: int, tag: string) {
    exists k :: Counts(rs, k, now, c) && !Matches(rs[k], tag)
  }

  /** Some order grants connector `c` with reservation `r` (0 for none). */
  ghost predicate MayGrant(rs: map<int, Reservation>, now: int, c: int, tag: string, r: int) {
    || (Counts(rs, r, now, c) && rs[r].connectorID == c && Matches(rs[r], tag))
    || (&& !MayRefuse(rs, now, c, tag)
        && !LiveBound(rs, c, now)
        && (Counts(rs, r, now, c) || (r == 0 && forall k :: !Counts(rs, k, now, c))))
  }

  ghost predicate MayAnswer(rs: map<int, Reservation>, now: int, c: int, tag: string, r: int, granted: bool) {
    if granted then MayGrant(rs, now, c, tag, r) else r == 0 && MayRefuse(rs, now, c, tag)
  }

  lemma {:induction false} WalkIsSound(
      rs: map<int, Reservation>, order: seq<int>, now: int, c: int, tag: string, matched: int)
    requires c != 0
    requires forall k :: k in order ==> k in rs
    ensures var (r, granted) := Walk(rs, order, now, c, tag, matched);
      if granted then
        || (r in order && Counts(rs, r, now, c) && rs[r].connectorID == c && Matches(rs[r], tag))
        || (&& (forall k :: k in order && Counts(rs, k, now, c) ==> rs[k].connectorID == 0 && Matches(rs[k], tag))
            && ((r in order && Counts(rs, r, now, c))
                || (r == matched && forall k :: k in order ==> !Counts(rs, k, now, c))))
      else r == 0 && exists k :: k in order && Counts(rs, k, now, c) && !Matches(rs[k], tag)
  {
    if order != [] {
      var rest := order[1..];
      assert order == [order[0]] + rest;
      assert forall k :: k in order <==> k == order[0] || k in rest;
      if !Counts(rs, order[0], now, c) {
        WalkIsSound(rs, rest, now, c, tag, matched);
      } else if rs[order[0]].connectorID != c {
        WalkIsSound(rs, rest, now, c, tag, order[0]);
      }
    }
  }

  lemma {:induction false} WalkEndsAtLast(
      rs: map<int, Reservation>, order: seq<int>, g: int, now: int, c: int, tag: string, matched: int)
    requires c != 0
    requires forall k :: k in order + [g] ==> k in rs
    requires forall k :: k in order + [g] && Counts(rs, k, now, c) ==> rs[k].connectorID == 0 && Matches(rs[k], tag)
    requires Counts(rs, g, now, c)
    ensures Walk(rs, order + [g], now, c, tag, matched) == (g, true)
  {
    var all := order + [g];
    if order == [] {
      assert all == [g];
      assert all[1..] == [];
      assert rs[g].connectorID == 0 && Matches(rs[g], tag) by { assert g in all; }
      assert Walk(rs, [], now, c, tag, g) == (g, true);
    } else {
      var rest := order[1..];
      assert all[1..] == rest + [g];
      assert all[0] in all;
      assert forall k :: k in rest + [g] ==> k in all;
      WalkEndsAtLast(rs, rest, g, now, c, tag, if Counts(rs, all[0], now, c) then all[0] else matched);
    }
  }

  lemma {:induction false} SomeOrder(keys: set<int>) returns (order: seq<int>)
    ensures IsOrder(order, keys)
    decreases |keys|
  {
    order := [];
    if k :| k in keys {
      var rest := SomeOrder(keys - {k});
      order := [k] + rest;
    }
  }

  lemma AnswerHasOrder(rs: map<int, Reservation>, now: int, c: int, tag: string, r: int, granted: bool)
      returns (order: seq<int>)
    requires c != 0
    requires MayAnswer(rs, now, c, tag, r, granted)
    ensures IsOrder(order, rs.Keys)
    ensures Walk(rs, order, now, c, tag, 0) == (r, granted)
  {
    if granted && !MayRefuse(rs, now, c, tag) && !LiveBound(rs, c, now) {
      if Counts(rs, r, now, c) {
        var rest := SomeOrder(rs.Keys - {r});
        order := rest + [r];
        WalkEndsAtLast(rs, rest, r, now, c, tag, 0);
      } else {
        order := SomeOrder(rs.Keys);
        WalkIsSound(rs, order, now, c, tag, 0);
      }
    } else {
      var first := r;
      if !granted {
        first :| Counts(rs, first, now, c) && !Matches(rs[first], tag);
      }
      var rest := SomeOrder(rs.Keys - {first});
      order := [first] + rest;
    }
  }

  /** The relation is exactly what the walk can answer, over all orders. */
  lemma AccessExact(rs: map<int, Reservation>, now: int, c: int, tag: string, r: int, granted: bool)
    requires c != 0
    ensures MayAnswer(rs, now, c, tag, r, granted) <==>
            exists order :: IsOrder(order, rs.Keys) && Walk(rs, order, now, c, tag, 0) == (r, granted)
  {
    if MayAnswer(rs, now, c, tag, r, granted) {
      var order := AnswerHasOrder(rs, now, c, tag, r, granted);
    }
    forall order | IsOrder(order, rs.Keys) && Walk(rs, order, now, c, tag, 0) == (r, granted)
      ensures MayAnswer(rs, now, c, tag, r, granted)
    {
      WalkIsSound(rs, order, now, c, tag, 0);
    }
  }

  // ---------------------------------------------------------------------
  // What the answers mean
  // ---------------------------------------------------------------------

  /** Whatever the order: a live reservation bound to `c` for another tag
      refuses; a granted reservation is live, covers `c` and matches; and a
      grant without a reservation means none is live and covering. */
  lemma AccessMeaning(core: Core, order: seq<int>, now: int, c: int, tag: string)
    requires StoreShape(core) && c in core.connectors && c != 0
    requires forall k :: k in core.reservations ==> k > 0
    requires IsOrder(order, core.reservations.Keys)
    ensures var rs := core.reservations;
      var (r, granted) := Walk(rs, order, now, c, tag, 0);
      && ((exists k :: Counts(rs, k, now, c) && rs[k].connectorID == c && !Matches(rs[k], tag)) ==> !granted)
      && (granted && r > 0 ==> Counts(rs, r, now, c) && Matches(rs[r], tag))
      && (granted && r == 0 ==> forall k :: !Counts(rs, k, now, c))
      && r >= 0
  {
    WalkIsSound(core.reservations, order, now, c, tag, 0);
  }

  /** A matching reservation bound to `c` coexists with a mismatching
      connector-zero one. */
  ghost predicate Contested(rs: map<int, Reservation>, now: int, c: int, tag: string) {
    exists b, g :: Counts(rs, b, now, c) && rs[b].connectorID == c && Matches(rs[b], tag)
      && Counts(rs, g, now, c) && rs[g].connectorID == 0 && !Matches(rs[g], tag)
  }

  /** Two orders disagree on the verdict exactly when it is contested. */
  lemma OrderMatters(core: Core, now: int, c: int, tag: string)
    requires StoreShape(core) && c in core.connectors && c != 0
    ensures var rs := core.reservations;
      (exists p, q :: IsOrder(p, rs.Keys) && IsOrder(q, rs.Keys)
         && Walk(rs, p, now, c, tag, 0).1 && !Walk(rs, q, now, c, tag, 0).1)
      <==> Contested(rs, now, c, tag)
  {
    var rs := core.reservations;
    if p, q :|
      && IsOrder(p, rs.Keys) && IsOrder(q, rs.Keys)
      && Walk(rs, p, now, c, tag, 0).1 && !Walk(rs, q, now, c, tag, 0).1
    {
      WalkIsSound(rs, p, now, c, tag, 0);
      WalkIsSound(rs, q, now, c, tag, 0);
      var b := Walk(rs, p, now, c, tag, 0).0;
      var g :| Counts(rs, g, now, c) && !Matches(rs[g], tag);
      assert Counts(rs, b, now, c) && rs[b].connectorID == c && Matches(rs[b], tag);
      assert Counts(rs, g, now, c);
      assert rs[g].connectorID == 0;
    }
    if b, g :|
      && Counts(rs, b, now, c) && rs[b].connectorID == c && Matches(rs[b], tag)
      && Counts(rs, g, now, c) && rs[g].connectorID == 0 && !Matches(rs[g], tag)
    {
      var p := AnswerHasOrder(rs, now, c, tag, b, true);
      var q := AnswerHasOrder(rs, now, c, tag, 0, false);
    }
  }

  // ---------------------------------------------------------------------
  // Selecting a connector for a remote start
  // ---------------------------------------------------------------------

  datatype Choice = NoConnector | Chosen(connectorID: int, reservationID: int)

  /** Operative and without a transaction. */
  predicate Eligible(core: Core, c: int) {
    c in core.connectors && core.connectors[c].availability == Operative && core.connectors[c].transactionID == 0
  }

  predicate AwaitingUse(core: Core, c: int) {
    c in core.connectors && (core.connectors[c].status == Available || core.connectors[c].status == Reserved)
  }

  predicate Free(core: Core, c: int) {
    c in core.connectors && core.connectors[c].status == Available
  }

  /** A named connector can be accepted with reservation `r`. */
  ghost predicate NamedTakes(core: Core, now: int, tag: string, c: int, r: int) {
    Eligible(core, c) && AwaitingUse(core, c) && MayGrant(core.reservations, now, c, tag, r)
  }

  ghost predicate NamedRefuses(core: Core, now: int, tag: string, c: int) {
    !Eligible(core, c) || !AwaitingUse(core, c) || MayRefuse(core.reservations, now, c, tag)
  }

  /** First pass: only connectors with a reservation for the tag. */
  ghost predicate FirstSkips(core: Core, now: int, tag: string, c: int) {
    NamedRefuses(core, now, tag, c) || exists r :: r <= 0 && MayGrant(core.reservations, now, c, tag, r)
  }

  /** Second pass: any connector that is Available. */
  ghost predicate SecondTakes(core: Core, now: int, tag: string, c: int, r: int) {
    Eligible(core, c) && Free(core, c) && MayGrant(core.reservations, now, c, tag, r)
  }

  ghost predicate SecondSkips(core: Core, now: int, tag: string, c: int) {
    !Eligible(core, c) || !Free(core, c) || MayRefuse(core.reservations, now, c, tag)
  }

  /** Every access call walks the map afresh, so the two passes can see
      different verdicts for the same connector. */
  ghost predicate AutoMayChoose(core: Core, now: int, tag: string, choice: Choice) {
    match choice
    case Chosen(c, r) =>
      || (&& NamedTakes(core, now, tag, c, r) && r > 0
          && (forall d :: d in core.connectors && d < c ==> FirstSkips(core, now, tag, d)))
      || (&& SecondTakes(core, now, tag, c, r)
          && (forall d :: d in core.connectors ==> FirstSkips(core, now, tag, d))
          && (forall d :: d in core.connectors && d < c ==> SecondSkips(core, now, tag, d)))
    case NoConnector =>
      forall d :: d in core.connectors ==> FirstSkips(core, now, tag, d) && SecondSkips(core, now, tag, d)
  }

  ghost predicate MayChoose(core: Core, now: int, requested: Option<int>, tag: string, choice: Choice) {
    match requested
    case None => AutoMayChoose(core, now, tag, choice)
    case Some(q) =>
      match choice
      case Chosen(c, r) => c == q && NamedTakes(core, now, tag, c, r)
      case NoConnector => NamedRefuses(core, now, tag, q)
  }

  /** No connector has a verdict that depends on the order of the walk. */
  ghost predicate OrderFree(core: Core, now: int, tag: string) {
    forall c, r :: c in core.connectors && MayGrant(core.reservations, now, c, tag, r) ==>
      !MayRefuse(core.reservations, now, c, tag)
  }

  ghost predicate FirstQualifies(core: Core, now: int, tag: string, c: int) {
    exists r :: r > 0 && NamedTakes(core, now, tag, c, r)
  }

  ghost predicate SecondQualifies(core: Core, now: int, tag: string, c: int) {
    exists r :: SecondTakes(core, now, tag, c, r)
  }

  /** Sound for every order: what is chosen automatically is accepted by name. */
  lemma ChosenIsAcceptedByName(core: Core, now: int, requested: Option<int>, tag: string, c: int, r: int)
    requires MayChoose(core, now, requested, tag, Chosen(c, r))
    ensures MayChoose(core, now, Some(c), tag, Chosen(c, r))
    ensures c in core.connectors && core.connectors[c].availability == Operative
    ensures core.connectors[c].transactionID == 0
    ensures core.connectors[c].status == Available || core.connectors[c].status == Reserved
  {}

  /** A grant is for one kind of reservation: with positive identifiers it
      either always or never names one. */
  lemma GrantKindIsFixed(core: Core, now: int, c: int, tag: string, q: int, r: int)
    requires StoreShape(core) && c in core.connectors
    requires forall k :: k in core.reservations ==> k > 0
    requires MayGrant(core.reservations, now, c, tag, q) && MayGrant(core.reservations, now, c, tag, r)
    ensures q > 0 <==> r > 0
  {}

  /** Whatever the walks see, connector `c` is taken by the first pass. */
  ghost predicate FirstSure(core: Core, now: int, tag: string, c: int) {
    FirstQualifies(core, now, tag, c) && !MayRefuse(core.reservations, now, c, tag)
  }

  ghost predicate SecondSure(core: Core, now: int, tag: string, c: int) {
    SecondQualifies(core, now, tag, c) && !MayRefuse(core.reservations, now, c, tag)
  }

  /** Some order gives an answer, so what is not refused is granted. */
  lemma RefusedOrGranted(core: Core, now: int, c: int, tag: string)
    requires c in core.connectors && !MayRefuse(core.reservations, now, c, tag)
    ensures exists r :: MayGrant(core.reservations, now, c, tag, r)
  {
    var rs := core.reservations;
    if LiveBound(rs, c, now) {
      var k :| k in rs && rs[k].connectorID == c && Live(rs[k], now);
      assert Counts(rs, k, now, c);
      assert MayGrant(rs, now, c, tag, k);
    } else if k :| Counts(rs, k, now, c) {
      assert MayGrant(rs, now, c, tag, k);
    } else {
      assert MayGrant(rs, now, c, tag, 0);
    }
  }

  /** A pass can go past a connector exactly when it is not sure of it. */
  lemma SkipsUnlessSure(core: Core, now: int, tag: string, c: int)
    requires StoreShape(core) && c in core.connectors
    requires forall k :: k in core.reservations ==> k > 0
    ensures FirstSkips(core, now, tag, c) <==> !FirstSure(core, now, tag, c)
    ensures SecondSkips(core, now, tag, c) <==> !SecondSure(core, now, tag, c)
  {
    var rs := core.reservations;
    if !MayRefuse(rs, now, c, tag) {
      RefusedOrGranted(core, now, c, tag);
      var r :| MayGrant(rs, now, c, tag, r);
      assert NamedTakes(core, now, tag, c, r) <==> Eligible(core, c) && AwaitingUse(core, c);
      assert SecondTakes(core, now, tag, c, r) <==> Eligible(core, c) && Free(core, c);
      forall q | MayGrant(rs, now, c, tag, q)
        ensures q > 0 <==> r > 0
      {
        GrantKindIsFixed(core, now, c, tag, q, r);
      }
    }
  }

  /** The automatic choice, for any orders: none only if neither pass is sure
      of any connector; with a reservation it passes over no lower connector
      the first pass is sure of; and the second pass is reached only if the
      first is sure of none.  With order-free verdicts to be sure of a
      connector is for it to qualify, so the lowest connector with a
      reservation for the tag is chosen, and failing that the lowest free one. */
  lemma AutoChoiceIsPreferred(core: Core, now: int, tag: string, choice: Choice)
    requires StoreShape(core) && (forall k :: k in core.reservations ==> k > 0)
    ensures AutoMayChoose(core, now, tag, choice) <==>
      match choice
      case NoConnector =>
        forall d :: d in core.connectors ==> !FirstSure(core, now, tag, d) && !SecondSure(core, now, tag, d)
      case Chosen(c, r) =>
        || (&& NamedTakes(core, now, tag, c, r) && r > 0
            && (forall d :: d in core.connectors && d < c ==> !FirstSure(core, now, tag, d)))
        || (&& SecondTakes(core, now, tag, c, r)
            && (forall d :: d in core.connectors ==> !FirstSure(core, now, tag, d))
            && (forall d :: d in core.connectors && d < c ==> !SecondSure(core, now, tag, d)))
    ensures OrderFree(core, now, tag) ==> forall d :: d in core.connectors ==>
      && (FirstSure(core, now, tag, d) <==> FirstQualifies(core, now, tag, d))
      && (SecondSure(core, now, tag, d) <==> SecondQualifies(core, now, tag, d))
  {
    forall d | d in core.connectors
      ensures FirstSkips(core, now, tag, d) <==> !FirstSure(core, now, tag, d)
      ensures SecondSkips(core, now, tag, d) <==> !SecondSure(core, now, tag, d)
    {
      SkipsUnlessSure(core, now, tag, d);
    }
    forall d | d in core.connectors && OrderFree(core, now, tag)
      ensures FirstSure(core, now, tag, d) <==> FirstQualifies(core, now, tag, d)
      ensures SecondSure(core, now, tag, d) <==> SecondQualifies(core, now, tag, d)
    {
      if r :| NamedTakes(core, now, tag, d, r) {
        assert MayGrant(core.reservations, now, d, tag, r);
      }
      if r :| SecondTakes(core, now, tag, d, r) {
        assert MayGrant(core.reservations, now, d, tag, r);
      }
    }
  }

  /** Where the automatic search failed, naming connector `c` is accepted in
      exactly two cases: it still shows Reserved with nothing live covering it,
      or the verdict on it is contested and both passes met the refusal. */
  lemma AutoFailureAgainstNaming(core: Core, now: int, tag: string, c: int)
    requires StoreShape(core) && (forall k :: k in core.reservations ==> k > 0)
    requires c in core.connectors && c != 0
    requires AutoMayChoose(core, now, tag, NoConnector)
    ensures (exists r :: MayChoose(core, now, Some(c), tag, Chosen(c, r))) <==>
      && Eligible(core, c) && AwaitingUse(core, c)
      && (|| (core.connectors[c].status == Reserved && forall k :: !Counts(core.reservations, k, now, c))
          || Contested(core.reservations, now, c, tag))
  {
    var rs := core.reservations;
    if r :| MayChoose(core, now, Some(c), tag, Chosen(c, r)) {
      assert NamedTakes(core, now, tag, c, r);
      if g :| Counts(rs, g, now, c) && !Matches(rs[g], tag) {
        assert MayRefuse(rs, now, c, tag);
        assert rs[r].connectorID == c && Matches(rs[r], tag);
        assert rs[g].connectorID == 0;
      } else {
        SkipsUnlessSure(core, now, tag, c);
        assert !MayRefuse(rs, now, c, tag);
        assert r <= 0;
      }
    }
    if Eligible(core, c) && AwaitingUse(core, c) {
      if forall k :: !Counts(rs, k, now, c) {
        assert MayGrant(rs, now, c, tag, 0);
        assert MayChoose(core, now, Some(c), tag, Chosen(c, 0));
      }
      if Contested(rs, now, c, tag) {
        var b :| Counts(rs, b, now, c) && rs[b].connectorID == c && Matches(rs[b], tag);
        assert MayGrant(rs, now, c, tag, b);
        assert MayChoose(core, now, Some(c), tag, Chosen(c, b));
      }
    }
  }

  /** The first case: the reservation has expired and was not swept yet. */
  lemma AutoMissesExpiredReservation(tag: string, now: int) returns (core: Core)
    ensures Shape(1, core)
    ensures AutoMayChoose(core, now, tag, NoConnector) && !(exists c, r :: AutoMayChoose(core, now, tag, Chosen(c, r)))
    ensures MayChoose(core, now, Some(1), tag, Chosen(1, 0))
  {
    core := Core(map[1 := Connector(Operative, Reserved, 0, "", 0)], map[1 := Reservation(1, tag, "", now)], false);
    assert Ids(1) == {1};
    assert forall k :: !Counts(core.reservations, k, now, 1);
    assert MayGrant(core.reservations, now, 1, tag, 0);
    assert FirstSkips(core, now, tag, 1);
  }

  /** The second case: connector 1 is reserved for the tag, and a live
      connector-zero reservation for another tag is met first. */
  lemma AutoMissesContestedReservation(now: int) returns (core: Core)
    ensures Shape(1, core)
    ensures AutoMayChoose(core, now, "A", NoConnector)
    ensures MayChoose(core, now, Some(1), "A", Chosen(1, 7))
  {
    core := Core(map[1 := Connector(Operative, Reserved, 0, "", 0)],
                 map[7 := Reservation(1, "A", "", now + 1), 8 := Reservation(0, "B", "", now + 1)], false);
    assert Ids(1) == {1};
    assert Counts(core.reservations, 7, now, 1);
    assert Counts(core.reservations, 8, now, 1);
    assert MayRefuse(core.reservations, now, 1, "A");
    assert FirstSkips(core, now, "A", 1);
  }

  // ---------------------------------------------------------------------
  // Verdict of a ReserveNow
  // ---------------------------------------------------------------------

  /** Connector-zero reservations need one operative, transaction-free
      connector that the tag may use. */
  ghost predicate ZeroMayAnswer(core: Core, now: int, tag: string, answer: ReserveAnswer) {
    match answer
    case ReserveAccepted =>
      exists c, r :: Eligible(core, c) && MayGrant(core.reservations, now, c, tag, r)
    case ReserveOccupied =>
      && (exists c :: c in core.connectors && core.connectors[c].availability == Operative)
      && (forall c :: c in core.connectors && Eligible(core, c) ==> MayRefuse(core.reservations, now, c, tag))
    case ReserveUnavailable =>
      forall c :: c in core.connectors ==> core.connectors[c].availability == Inoperative
    case _ => false
  }

  ghost function NamedReserveAnswer(core: Core, id: int): ReserveAnswer {
    if id !in core.connectors then ReserveRejected
    else
      var connector := core.connectors[id];
      if connector.status == Faulted then ReserveFaulted
      else if connector.availability == Inoperative || connector.status == Unavailable then ReserveUnavailable
      else if connector.transactionID > 0 || connector.status == Preparing
           || connector.status == Charging || connector.status == Finishing then ReserveOccupied
      else if Unbound(core.reservations, id) then ReserveAccepted
      else ReserveOccupied
  }

  /** `core` is the store after any reservation with the same id is released. */
  ghost predicate ReserveMayAnswer(core: Core, now: int, request: ReserveRequest, answer: ReserveAnswer) {
    if request.connectorId == 0 then ZeroMayAnswer(core, now, request.idTag, answer)
    else answer == NamedReserveAnswer(core, request.connectorId)
  }
}
