/** The loops over connectors, with the order of every reservation walk left
    open: the order-free relations of `Access` hold of exactly the answers that
    some orders give. */
module Searches {
  import opened Station
  import opened Access

  // ---------------------------------------------------------------------
  // The two passes of an automatic remote start
  // ---------------------------------------------------------------------

  datatype Pass = First | Second

  /** The checks a pass makes before it looks at reservations. */
  predicate LooksAt(core: Core, pass: Pass, id: int) {
    Eligible(core, id) && (pass == Second ==> Free(core, id))
  }

  /** The pass stops at connector `id` with this answer of the walk. */
  predicate Takes(core: Core, pass: Pass, id: int, r: int, granted: bool) {
    granted && (pass == First ==> r > 0 && AwaitingUse(core, id))
  }

  /** From connector `id` on, the search can end with `choice`: every call
      walks the reservations in an order of its own. */
  ghost predicate SearchMay(core: Core, n: nat, now: int, tag: string, pass: Pass, id: nat, choice: Choice)
    requires 1 <= id <= n + 1
    decreases if pass == First then 1 else 0, n + 1 - id
  {
    if id == n + 1 then
      if pass == First then SearchMay(core, n, now, tag, Second, 1, choice) else choice == NoConnector
    else if !LooksAt(core, pass, id) then SearchMay(core, n, now, tag, pass, id + 1, choice)
    else
      exists order :: IsOrder(order, core.reservations.Keys) &&
        var (r, granted) := Walk(core.reservations, order, now, id, tag, 0);
        if Takes(core, pass, id, r, granted) then choice == Chosen(id, r)
        else SearchMay(core, n, now, tag, pass, id + 1, choice)
  }

  /** With this answer of the walk at connector `id` the search can end with
      `choice`. */
  ghost predicate Gives(
      core: Core, n: nat, now: int, tag: string, pass: Pass, id: nat, choice: Choice, r: int, granted: bool)
    requires 1 <= id <= n
  {
    && MayAnswer(core.reservations, now, id, tag, r, granted)
    && if Takes(core, pass, id, r, granted) then choice == Chosen(id, r)
       else SearchMay(core, n, now, tag, pass, id + 1, choice)
  }

  /** One connector of a pass, without the order. */
  lemma TurnExact(core: Core, n: nat, now: int, tag: string, pass: Pass, id: nat, choice: Choice)
    requires 1 <= id <= n && LooksAt(core, pass, id)
    ensures SearchMay(core, n, now, tag, pass, id, choice) <==>
      exists r, granted :: Gives(core, n, now, tag, pass, id, choice, r, granted)
  {
    var rs := core.reservations;
    if SearchMay(core, n, now, tag, pass, id, choice) {
      var order :| IsOrder(order, rs.Keys) &&
        var (r, granted) := Walk(rs, order, now, id, tag, 0);
        if Takes(core, pass, id, r, granted) then choice == Chosen(id, r)
        else SearchMay(core, n, now, tag, pass, id + 1, choice);
      var (r, granted) := Walk(rs, order, now, id, tag, 0);
      AccessExact(rs, now, id, tag, r, granted);
      assert Gives(core, n, now, tag, pass, id, choice, r, granted);
    }
    if r, granted :| Gives(core, n, now, tag, pass, id, choice, r, granted) {
      var order := AnswerHasOrder(rs, now, id, tag, r, granted);
      assert Walk(rs, order, now, id, tag, 0) == (r, granted);
    }
  }

  predicate From(core: Core, id: int, d: int) {
    d in core.connectors && id <= d
  }

  /** The second pass from `id` on, in the terms of `Access`. */
  ghost predicate SecondFrom(core: Core, now: int, tag: string, id: int, choice: Choice) {
    match choice
    case NoConnector => forall d :: From(core, id, d) ==> SecondSkips(core, now, tag, d)
    case Chosen(c, r) =>
      && From(core, id, c) && SecondTakes(core, now, tag, c, r)
      && forall d :: From(core, id, d) && d < c ==> SecondSkips(core, now, tag, d)
  }

  ghost predicate FirstFrom(core: Core, now: int, tag: string, id: int, choice: Choice) {
    || (&& choice.Chosen? && From(core, id, choice.connectorID)
        && NamedTakes(core, now, tag, choice.connectorID, choice.reservationID) && choice.reservationID > 0
        && forall d :: From(core, id, d) && d < choice.connectorID ==> FirstSkips(core, now, tag, d))
    || (&& SecondFrom(core, now, tag, 1, choice)
        && forall d :: From(core, id, d) ==> FirstSkips(core, now, tag, d))
  }

  lemma {:induction false} SecondPassExact(core: Core, n: nat, now: int, tag: string, id: nat, choice: Choice)
    requires core.connectors.Keys == Ids(n) && 1 <= id <= n + 1
    ensures SearchMay(core, n, now, tag, Second, id, choice) <==> SecondFrom(core, now, tag, id, choice)
    decreases n + 1 - id
  {
    if id <= n {
      SecondPassExact(core, n, now, tag, id + 1, choice);
      assert id in core.connectors;
      assert forall d :: From(core, id, d) <==> d == id || From(core, id + 1, d);
      if LooksAt(core, Second, id) {
        TurnExact(core, n, now, tag, Second, id, choice);
        SecondTurn(core, n, now, tag, id, choice);
      } else {
        assert SecondSkips(core, now, tag, id);
      }
    }
  }

  lemma SecondTurn(core: Core, n: nat, now: int, tag: string, id: nat, choice: Choice)
    requires 1 <= id <= n && id in core.connectors && LooksAt(core, Second, id)
    requires forall d :: From(core, id, d) <==> d == id || From(core, id + 1, d)
    requires SearchMay(core, n, now, tag, Second, id + 1, choice) <==> SecondFrom(core, now, tag, id + 1, choice)
    ensures SecondFrom(core, now, tag, id, choice) <==>
      exists r, granted :: Gives(core, n, now, tag, Second, id, choice, r, granted)
  {
    var rs := core.reservations;
    if SecondFrom(core, now, tag, id, choice) {
      if choice.Chosen? && choice.connectorID == id {
        assert Gives(core, n, now, tag, Second, id, choice, choice.reservationID, true);
      } else {
        assert SecondSkips(core, now, tag, id);
        assert Gives(core, n, now, tag, Second, id, choice, 0, false);
      }
    }
  }

  lemma {:induction false} FirstPassExact(core: Core, n: nat, now: int, tag: string, id: nat, choice: Choice)
    requires core.connectors.Keys == Ids(n) && 1 <= id <= n + 1
    ensures SearchMay(core, n, now, tag, First, id, choice) <==> FirstFrom(core, now, tag, id, choice)
    decreases n + 1 - id
  {
    if id == n + 1 {
      SecondPassExact(core, n, now, tag, 1, choice);
      assert forall d :: !From(core, id, d);
    } else {
      FirstPassExact(core, n, now, tag, id + 1, choice);
      assert id in core.connectors;
      assert forall d :: From(core, id, d) <==> d == id || From(core, id + 1, d);
      if LooksAt(core, First, id) {
        TurnExact(core, n, now, tag, First, id, choice);
        FirstTurn(core, n, now, tag, id, choice);
      } else {
        assert FirstSkips(core, now, tag, id);
      }
    }
  }

  lemma FirstTurn(core: Core, n: nat, now: int, tag: string, id: nat, choice: Choice)
    requires 1 <= id <= n && id in core.connectors && LooksAt(core, First, id)
    requires forall d :: From(core, id, d) <==> d == id || From(core, id + 1, d)
    requires SearchMay(core, n, now, tag, First, id + 1, choice) <==> FirstFrom(core, now, tag, id + 1, choice)
    ensures FirstFrom(core, now, tag, id, choice) <==>
      exists r, granted :: Gives(core, n, now, tag, First, id, choice, r, granted)
  {
    var rs := core.reservations;
    FirstTurnAnswers(core, now, tag, id);
    if FirstFrom(core, now, tag, id, choice) {
      if choice.Chosen? && choice.connectorID == id && choice.reservationID > 0
         && NamedTakes(core, now, tag, id, choice.reservationID) {
        assert Gives(core, n, now, tag, First, id, choice, choice.reservationID, true);
      } else {
        assert FirstSkips(core, now, tag, id);
        var r, granted :| MayAnswer(rs, now, id, tag, r, granted) && !Takes(core, First, id, r, granted);
        assert FirstFrom(core, now, tag, id + 1, choice);
        assert Gives(core, n, now, tag, First, id, choice, r, granted);
      }
    }
    if r, granted :| Gives(core, n, now, tag, First, id, choice, r, granted) {
      if !Takes(core, First, id, r, granted) {
        assert FirstSkips(core, now, tag, id);
      }
    }
  }

  /** The first pass goes past a connector it looks at exactly when some
      answer of the walk lets it. */
  lemma FirstTurnAnswers(core: Core, now: int, tag: string, id: int)
    requires id in core.connectors && LooksAt(core, First, id)
    ensures FirstSkips(core, now, tag, id) <==>
      exists r, granted :: MayAnswer(core.reservations, now, id, tag, r, granted) && !Takes(core, First, id, r, granted)
  {
    var rs := core.reservations;
    if FirstSkips(core, now, tag, id) {
      if MayRefuse(rs, now, id, tag) {
        assert MayAnswer(rs, now, id, tag, 0, false);
      } else {
        RefusedOrGranted(core, now, id, tag);
        if AwaitingUse(core, id) {
          var r :| r <= 0 && MayGrant(rs, now, id, tag, r);
          assert MayAnswer(rs, now, id, tag, r, true);
        } else {
          var r :| MayGrant(rs, now, id, tag, r);
          assert MayAnswer(rs, now, id, tag, r, true);
        }
      }
    }
  }

  /** `AutoMayChoose` is exactly what the two passes can choose, over all orders
      of all walks. */
  lemma AutoMayChooseExact(core: Core, n: nat, now: int, tag: string, choice: Choice)
    requires core.connectors.Keys == Ids(n)
    ensures AutoMayChoose(core, now, tag, choice) <==> SearchMay(core, n, now, tag, First, 1, choice)
  {
    FirstPassExact(core, n, now, tag, 1, choice);
    assert forall d :: From(core, 1, d) <==> d in core.connectors;
  }

  // ---------------------------------------------------------------------
  // The loop of a connector-zero ReserveNow
  // ---------------------------------------------------------------------

  /** The check of connector `c`, with the reservations walked in `order`. */
  predicate Admits(core: Core, now: int, tag: string, c: int, order: seq<int>)
    requires forall k :: k in order ==> k in core.reservations
  {
    Eligible(core, c) && Walk(core.reservations, order, now, c, tag, 0).1
  }

  predicate Seen(core: Core, operative: bool, c: int)
    requires c in core.connectors
  {
    operative || core.connectors[c].availability == Operative
  }

  /** The loop over the connectors in `rest`, with `operative` what it has seen
      so far, can end with `answer`. */
  ghost predicate ZeroLoop(core: Core, now: int, tag: string, rest: seq<int>, operative: bool, answer: ReserveAnswer)
    requires forall c :: c in rest ==> c in core.connectors
  {
    if rest == [] then answer == if operative then ReserveOccupied else ReserveUnavailable
    else
      var c := rest[0];
      exists order :: IsOrder(order, core.reservations.Keys) &&
        if Admits(core, now, tag, c, order) then answer == ReserveAccepted
        else ZeroLoop(core, now, tag, rest[1..], Seen(core, operative, c), answer)
  }

  /** The same from the connectors in `rest`, without any order. */
  ghost predicate ZeroFrom(core: Core, now: int, tag: string, rest: seq<int>, operative: bool, answer: ReserveAnswer) {
    match answer
    case ReserveAccepted => exists c, r :: c in rest && Eligible(core, c) && MayGrant(core.reservations, now, c, tag, r)
    case ReserveOccupied =>
      && (operative || exists c :: c in rest && c in core.connectors && core.connectors[c].availability == Operative)
      && (forall c :: c in rest && Eligible(core, c) ==> MayRefuse(core.reservations, now, c, tag))
    case ReserveUnavailable =>
      !operative && forall c :: c in rest && c in core.connectors ==> core.connectors[c].availability == Inoperative
    case _ => false
  }

  lemma {:induction false} ZeroLoopIsSound(
      core: Core, now: int, tag: string, rest: seq<int>, operative: bool, answer: ReserveAnswer)
    requires forall c :: c in rest ==> c in core.connectors && c != 0
    requires ZeroLoop(core, now, tag, rest, operative, answer)
    ensures ZeroFrom(core, now, tag, rest, operative, answer)
  {
    if rest != [] {
      var c := rest[0];
      assert rest == [c] + rest[1..];
      var order :| IsOrder(order, core.reservations.Keys) &&
        if Admits(core, now, tag, c, order) then answer == ReserveAccepted
        else ZeroLoop(core, now, tag, rest[1..], Seen(core, operative, c), answer);
      var (r, granted) := Walk(core.reservations, order, now, c, tag, 0);
      AccessExact(core.reservations, now, c, tag, r, granted);
      if Admits(core, now, tag, c, order) {
        assert c in rest && MayGrant(core.reservations, now, c, tag, r);
      } else {
        var left, seen := rest[1..], Seen(core, operative, c);
        assert forall d :: d in left ==> d in rest;
        assert ZeroLoop(core, now, tag, left, seen, answer);
        ZeroLoopIsSound(core, now, tag, left, seen, answer);
      }
    }
  }

  /** Without an admitted connector the loop can reach its end. */
  lemma {:induction false} ZeroLoopCanFail(core: Core, now: int, tag: string, rest: seq<int>, operative: bool)
    requires forall c :: c in rest ==> c in core.connectors && c != 0
    requires forall c :: c in rest && Eligible(core, c) ==> MayRefuse(core.reservations, now, c, tag)
    ensures ZeroLoop(core, now, tag, rest, operative,
      if operative || exists c :: c in rest && core.connectors[c].availability == Operative
      then ReserveOccupied else ReserveUnavailable)
  {
    if rest != [] {
      var c := rest[0];
      var rs := core.reservations;
      assert rest == [c] + rest[1..];
      ZeroLoopCanFail(core, now, tag, rest[1..], Seen(core, operative, c));
      if Eligible(core, c) {
        var order := AnswerHasOrder(rs, now, c, tag, 0, false);
        assert !Admits(core, now, tag, c, order);
      } else {
        var order := SomeOrder(rs.Keys);
        assert !Admits(core, now, tag, c, order);
      }
    }
  }

  /** `ZeroMayAnswer` is exactly what the loop can answer, over all orders of
      the connectors and of all walks. */
  lemma ZeroMayAnswerExact(core: Core, now: int, tag: string, answer: ReserveAnswer)
    requires 0 !in core.connectors
    ensures ZeroMayAnswer(core, now, tag, answer) <==>
      exists order :: IsOrder(order, core.connectors.Keys) && ZeroLoop(core, now, tag, order, false, answer)
  {
    var rs := core.reservations;
    if ZeroMayAnswer(core, now, tag, answer) {
      if answer == ReserveAccepted {
        var c, r :| Eligible(core, c) && MayGrant(rs, now, c, tag, r);
        var rest := SomeOrder(core.connectors.Keys - {c});
        var order := [c] + rest;
        var walk := AnswerHasOrder(rs, now, c, tag, r, true);
        assert Admits(core, now, tag, c, walk);
        assert IsOrder(order, core.connectors.Keys) && ZeroLoop(core, now, tag, order, false, answer);
      } else {
        var order := SomeOrder(core.connectors.Keys);
        ZeroLoopCanFail(core, now, tag, order, false);
        assert IsOrder(order, core.connectors.Keys) && ZeroLoop(core, now, tag, order, false, answer);
      }
    }
    forall order | IsOrder(order, core.connectors.Keys) && ZeroLoop(core, now, tag, order, false, answer)
      ensures ZeroMayAnswer(core, now, tag, answer)
    {
      ZeroLoopIsSound(core, now, tag, order, false, answer);
    }
  }
}
