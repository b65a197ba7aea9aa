/** A purchase that nothing disturbs: how it ends is decided by the request and the tables it found. */
module PurchaseAlone {
  import opened Domain
  import opened SeatTable
  import opened Purchase
  import opened PurchaseInvariant
  import S = Saga
  import I = Idempotency

  ghost predicate Waiting(s: State, o: OrderId) {
    && o in s.attempts && S.Awaited(s.attempts[o]).Some?
    && S.FlightOf(s.attempts[o], S.Awaited(s.attempts[o]).value) == S.Sent
  }

  /** The awaited call is carried out, without a fault, and its reply heard. */
  ghost function Round(s: State, o: OrderId): State {
    if !Waiting(s, o) then s
    else
      var a := s.attempts[o];
      var c := S.Awaited(a).value;
      var (d, r) := Effect(s, o, a, c);
      d.(attempts := s.attempts[o := S.Hear(S.Land(a, c, r), r)])
  }

  ghost function Rounds(s: State, o: OrderId, k: nat): State
    decreases k
  {
    if k == 0 then s else Rounds(Round(s, o), o, k - 1)
  }

  /** A round is two steps of the protocol. */
  lemma RoundIsTwoSteps(s: State, o: OrderId)
    requires Waiting(s, o)
    ensures exists m :: Next(s, m) && Next(m, Round(s, o))
  {
    var a := s.attempts[o];
    var c := S.Awaited(a).value;
    var r := Effect(s, o, a, c).1;
    var m := Do(s, Execute(o, c, Clean));
    assert Next(s, m) by { assert Enabled(s, Execute(o, c, Clean)); }
    assert m.attempts[o] == S.Land(a, c, r) && S.MayHear(m.attempts[o], r);
    assert Enabled(m, Deliver(o, r));
    assert Do(m, Deliver(o, r)).attempts == Round(s, o).attempts;
    assert Do(m, Deliver(o, r)) == Round(s, o);
  }

  ghost function Arrived(s: State, o: OrderId, req: Request): State
    requires o !in s.attempts && S.ValidRequest(req)
  {
    Do(s, Arrive(o, req))
  }

  /** What a hold takes, giving it up gives back: reserve and release leave the seats as they were. */
  lemma HoldUndone(inv: Inventory, event: EventId, ids: seq<SeatId>, o: OrderId, words: Words)
    requires Reservable(inv.seats, event, ids) && HoldersAgree(inv.seats)
    ensures var (held, _) := Reserve(inv, event, ids, o, words);
      && HeldBy(held.seats, event, ids, o)
      && Move(held, event, ids, o, Available, words).0.seats == inv.seats
  {
    var held := Reserve(inv, event, ids, o, words).0;
    assert forall i :: 0 <= i < |ids| ==> ids[i] in Ids(ids);
    var back := Move(held, event, ids, o, Available, words).0;
    forall k | k in inv.seats ensures back.seats[k] == inv.seats[k] {}
  }

  /** After the insert and the reserve. */
  lemma TwoRounds(s: State, o: OrderId, req: Request)
    requires o !in s.attempts && S.ValidRequest(req) && !I.KeyTaken(s.orders, req)
    ensures var t := Rounds(Arrived(s, o, req), o, 2);
      && t.orders == s.orders[o := NewRow(req)] && t.payments == s.payments && t.sales == s.sales
      && t.inv == Reserve(s.inv, req.event, req.seats, o, req.words).0
      && o in t.attempts && t.attempts[o].id == o && t.attempts[o].req == req
      && (if Reservable(s.inv.seats, req.event, req.seats) then t.attempts[o].pc == S.Charging && t.attempts[o].charge == S.Sent
          else t.attempts[o].pc == S.Recording && t.attempts[o].record == S.Sent && t.attempts[o].verdict == S.ToFailed(SeatsUnavailable))
  {
    var s0 := Arrived(s, o, req);
    var s1 := Round(s0, o);
    assert s1.attempts[o].pc == S.Reserving && s1.attempts[o].reserve == S.Sent;
    assert Rounds(s0, o, 2) == Rounds(s1, o, 1) == Rounds(Round(s1, o), o, 0);
  }

  lemma {:induction false} RoundsAdd(s: State, o: OrderId, j: nat, k: nat)
    ensures Rounds(s, o, j + k) == Rounds(Rounds(s, o, j), o, k)
    decreases j
  {
    if j > 0 { RoundsAdd(Round(s, o), o, j - 1, k); }
  }

  lemma {:induction false} NoMoreRounds(s: State, o: OrderId, k: nat)
    requires !Waiting(s, o)
    ensures Rounds(s, o, k) == s
    decreases k
  {
    if k > 0 { NoMoreRounds(s, o, k - 1); }
  }

  /** The last round of a failed attempt. */
  lemma RecordsFailure(t: State, o: OrderId, why: FailureReason)
    requires o in t.attempts && t.attempts[o].pc == S.Recording && t.attempts[o].record == S.Sent
    requires t.attempts[o].verdict == S.ToFailed(why) && o in t.orders
    ensures var u := Round(t, o);
      && u.inv == t.inv && u.payments == t.payments && u.sales == t.sales
      && o in u.orders && u.orders[o].status == Failed && u.orders[o].failureReason == Some(S.ReasonLabel(why))
      && o in u.attempts && u.attempts[o].pc == S.Done(S.FailureAnswer(why))
  {
  }

  lemma ThreeRounds(t: State, o: OrderId)
    ensures Rounds(t, o, 3) == Round(Round(Round(t, o), o), o)
  {
    var t1 := Round(t, o);
    var t2 := Round(t1, o);
    assert Rounds(t, o, 3) == Rounds(t1, o, 2) == Rounds(t2, o, 1) == Rounds(Round(t2, o), o, 0);
  }

  /** The charge is declined. */
  lemma ChargeDeclined(t: State, o: OrderId)
    requires o in t.attempts && t.attempts[o].pc == S.Charging && t.attempts[o].charge == S.Sent
    requires t.attempts[o].req.amount % 7 == 0
    ensures var u := Round(t, o);
      && u.inv == t.inv && u.orders == t.orders && u.sales == t.sales
      && u.payments == t.payments + [Payment(o, t.attempts[o].req.amount, false)]
      && o in u.attempts && u.attempts[o].req == t.attempts[o].req
      && u.attempts[o].pc == S.Releasing(PaymentDeclined) && u.attempts[o].release == S.Sent
  {
  }

  /** The seats are given back. */
  lemma GivesBack(t: State, o: OrderId, why: FailureReason)
    requires o in t.attempts && t.attempts[o].pc == S.Releasing(why) && t.attempts[o].release == S.Sent
    ensures var q, u := t.attempts[o].req, Round(t, o);
      && u.inv == Move(t.inv, q.event, q.seats, o, Available, q.words).0
      && u.orders == t.orders && u.payments == t.payments && u.sales == t.sales
      && o in u.attempts && u.attempts[o].pc == S.Recording && u.attempts[o].record == S.Sent
      && u.attempts[o].verdict == S.ToFailed(why)
  {
  }

  /** From the charge on, when the card is declined. */
  lemma Declined(t: State, o: OrderId)
    requires o in t.attempts && t.attempts[o].pc == S.Charging && t.attempts[o].charge == S.Sent && o in t.orders
    requires t.attempts[o].req.amount % 7 == 0
    ensures var q, u := t.attempts[o].req, Rounds(t, o, 3);
      && u.inv == Move(t.inv, q.event, q.seats, o, Available, q.words).0
      && u.payments == t.payments + [Payment(o, q.amount, false)] && u.sales == t.sales
      && o in u.orders && u.orders[o].status == Failed && u.orders[o].failureReason == Some(S.ReasonLabel(PaymentDeclined))
      && o in u.attempts && u.attempts[o].pc == S.Done(S.ErrPaymentDeclined)
  {
    ThreeRounds(t, o);
    ChargeDeclined(t, o);
    GivesBack(Round(t, o), o, PaymentDeclined);
    RecordsFailure(Round(Round(t, o), o), o, PaymentDeclined);
  }

  /** The charge goes through. */
  lemma ChargeAccepted(t: State, o: OrderId)
    requires o in t.attempts && t.attempts[o].pc == S.Charging && t.attempts[o].charge == S.Sent
    requires t.attempts[o].req.amount % 7 != 0
    ensures var u := Round(t, o);
      && u.inv == t.inv && u.orders == t.orders && u.sales == t.sales
      && u.payments == t.payments + [Payment(o, t.attempts[o].req.amount, true)]
      && o in u.attempts && u.attempts[o].req == t.attempts[o].req && u.attempts[o].id == t.attempts[o].id
      && u.attempts[o].pc == S.Confirming && u.attempts[o].confirm == S.Sent
  {
  }

  /** The held seats are sold. */
  lemma Sells(t: State, o: OrderId)
    requires o in t.attempts && t.attempts[o].pc == S.Confirming && t.attempts[o].confirm == S.Sent
    requires var q := t.attempts[o].req; HeldBy(t.inv.seats, q.event, q.seats, o)
    ensures var q, u := t.attempts[o].req, Round(t, o);
      && u.inv == Move(t.inv, q.event, q.seats, o, Sold, q.words).0
      && u.orders == t.orders && u.payments == t.payments && u.sales == t.sales + SalesOf(o, q.seats)
      && o in u.attempts && u.attempts[o].id == t.attempts[o].id
      && u.attempts[o].pc == S.Recording && u.attempts[o].record == S.Sent && u.attempts[o].verdict == S.ToConfirmed
  {
  }

  /** The last round of a good attempt. */
  lemma RecordsSuccess(t: State, o: OrderId)
    requires o in t.attempts && t.attempts[o].pc == S.Recording && t.attempts[o].record == S.Sent
    requires t.attempts[o].verdict == S.ToConfirmed && o in t.orders
    ensures var u := Round(t, o);
      && u.inv == t.inv && u.payments == t.payments && u.sales == t.sales
      && o in u.orders && u.orders[o].status == Confirmed
      && o in u.attempts && u.attempts[o].pc == S.Done(S.OrderPlaced(t.attempts[o].id))
  {
  }

  /** From the charge on, when the card is good. */
  lemma Paid(t: State, o: OrderId)
    requires o in t.attempts && t.attempts[o].id == o && t.attempts[o].pc == S.Charging && t.attempts[o].charge == S.Sent
    requires o in t.orders
    requires var q := t.attempts[o].req; q.amount % 7 != 0 && HeldBy(t.inv.seats, q.event, q.seats, o)
    ensures var q, u := t.attempts[o].req, Rounds(t, o, 3);
      && u.inv == Move(t.inv, q.event, q.seats, o, Sold, q.words).0
      && u.payments == t.payments + [Payment(o, q.amount, true)] && u.sales == t.sales + SalesOf(o, q.seats)
      && o in u.orders && u.orders[o].status == Confirmed
      && o in u.attempts && u.attempts[o].pc == S.Done(S.OrderPlaced(o))
  {
    ThreeRounds(t, o);
    ChargeAccepted(t, o);
    Sells(Round(t, o), o);
    RecordsSuccess(Round(Round(t, o), o), o);
  }

  /** How a purchase that found the tables as in s ends. */
  ghost predicate Ends(s: State, u: State, o: OrderId, req: Request) {
    && o in u.orders && o in u.attempts
    && if !Reservable(s.inv.seats, req.event, req.seats) then
         && u.attempts[o].pc == S.Done(S.ErrSeatsUnavailable) && u.orders[o].status == Failed
         && u.inv == s.inv && u.payments == s.payments && u.sales == s.sales
       else if req.amount % 7 == 0 then
         && u.attempts[o].pc == S.Done(S.ErrPaymentDeclined) && u.orders[o].status == Failed
         && u.inv.seats == s.inv.seats && u.payments == s.payments + [Payment(o, req.amount, false)] && u.sales == s.sales
       else
         && u.attempts[o].pc == S.Done(S.OrderPlaced(o)) && u.orders[o].status == Confirmed
         && u.inv.seats == Marked(s.inv.seats, Ids(req.seats), Sold, None)
         && u.payments == s.payments + [Payment(o, req.amount, true)] && u.sales == s.sales + SalesOf(o, req.seats)
  }

  lemma EndsTaken(s: State, o: OrderId, req: Request)
    requires o !in s.attempts && S.ValidRequest(req) && !I.KeyTaken(s.orders, req)
    requires !Reservable(s.inv.seats, req.event, req.seats)
    ensures Ends(s, Rounds(Rounds(Arrived(s, o, req), o, 2), o, 3), o, req)
  {
    var t := Rounds(Arrived(s, o, req), o, 2);
    TwoRounds(s, o, req);
    RecordsFailure(t, o, SeatsUnavailable);
    NoMoreRounds(Round(t, o), o, 2);
    assert Rounds(t, o, 3) == Rounds(Round(t, o), o, 2);
  }

  lemma EndsDeclined(s: State, o: OrderId, req: Request)
    requires HoldersAgree(s.inv.seats) && o !in s.attempts && S.ValidRequest(req) && !I.KeyTaken(s.orders, req)
    requires Reservable(s.inv.seats, req.event, req.seats) && req.amount % 7 == 0
    ensures Ends(s, Rounds(Rounds(Arrived(s, o, req), o, 2), o, 3), o, req)
  {
    TwoRounds(s, o, req);
    HoldUndone(s.inv, req.event, req.seats, o, req.words);
    Declined(Rounds(Arrived(s, o, req), o, 2), o);
  }

  /** Selling what was held marks the free seats SOLD. */
  lemma HoldSold(inv: Inventory, event: EventId, ids: seq<SeatId>, o: OrderId, words: Words)
    requires Reservable(inv.seats, event, ids)
    ensures var (held, _) := Reserve(inv, event, ids, o, words);
      HeldBy(held.seats, event, ids, o) && Move(held, event, ids, o, Sold, words).0.seats == Marked(inv.seats, Ids(ids), Sold, None)
  {
    assert forall i :: 0 <= i < |ids| ==> ids[i] in Ids(ids);
  }

  lemma EndsPaid(s: State, o: OrderId, req: Request)
    requires o !in s.attempts && S.ValidRequest(req) && !I.KeyTaken(s.orders, req)
    requires Reservable(s.inv.seats, req.event, req.seats) && req.amount % 7 != 0
    ensures Ends(s, Rounds(Rounds(Arrived(s, o, req), o, 2), o, 3), o, req)
  {
    TwoRounds(s, o, req);
    HoldSold(s.inv, req.event, req.seats, o, req.words);
    Paid(Rounds(Arrived(s, o, req), o, 2), o);
  }

  /**
   * How an undisturbed purchase ends. It is confirmed, its seats sold and its card charged, exactly when the seats
   * are free and the card is good; otherwise nothing is sold, nothing is taken, and every seat is as it was found.
   */
  lemma UndisturbedPurchase(s: State, o: OrderId, req: Request)
    requires HoldersAgree(s.inv.seats) && o !in s.attempts && S.ValidRequest(req) && !I.KeyTaken(s.orders, req)
    ensures Ends(s, Rounds(Arrived(s, o, req), o, 5), o, req)
  {
    RoundsAdd(Arrived(s, o, req), o, 2, 3);
    if !Reservable(s.inv.seats, req.event, req.seats) { EndsTaken(s, o, req); }
    else if req.amount % 7 == 0 { EndsDeclined(s, o, req); }
    else { EndsPaid(s, o, req); }
  }

  // ---- from every reachable state ----

  ghost predicate Extends(run: seq<State>, longer: seq<State>, end: State) {
    IsRun(longer) && run <= longer && longer[|longer| - 1] == end
  }

  lemma OneStepMore(run: seq<State>, t: State)
    requires IsRun(run) && Next(run[|run| - 1], t)
    ensures Extends(run, run + [t], t)
  {
    var longer := run + [t];
    forall i | 0 < i < |longer| ensures Linked(longer, i) {
      if i < |run| { assert Linked(run, i); }
    }
  }

  lemma ArriveMore(run: seq<State>, o: OrderId, req: Request)
    requires IsRun(run) && o !in run[|run| - 1].attempts && S.ValidRequest(req)
    ensures var t := Arrived(run[|run| - 1], o, req); Extends(run, run + [t], t)
  {
    assert Enabled(run[|run| - 1], Arrive(o, req));
    OneStepMore(run, Arrived(run[|run| - 1], o, req));
  }

  lemma OneRoundMore(run: seq<State>, o: OrderId) returns (longer: seq<State>)
    requires IsRun(run)
    ensures Extends(run, longer, Round(run[|run| - 1], o))
  {
    var s := run[|run| - 1];
    longer := run;
    if Waiting(s, o) {
      RoundIsTwoSteps(s, o);
      var m :| Next(s, m) && Next(m, Round(s, o));
      OneStepMore(run, m);
      OneStepMore(run + [m], Round(s, o));
      longer := run + [m] + [Round(s, o)];
    }
  }

  lemma {:induction false} MoreRounds(run: seq<State>, o: OrderId, k: nat) returns (longer: seq<State>)
    requires IsRun(run)
    ensures Extends(run, longer, Rounds(run[|run| - 1], o, k))
    decreases k
  {
    longer := run;
    if k > 0 {
      var next := OneRoundMore(run, o);
      longer := MoreRounds(next, o, k - 1);
    }
  }

  /** Any run can go on so: in every reachable state, a new customer with a good card can buy any free seats. */
  lemma FreeSeatsCanBeBought(run: seq<State>, o: OrderId, req: Request) returns (longer: seq<State>)
    requires IsRun(run) && o !in run[|run| - 1].attempts && S.ValidRequest(req) && req.amount % 7 != 0
    requires !I.KeyTaken(run[|run| - 1].orders, req) && Reservable(run[|run| - 1].inv.seats, req.event, req.seats)
    ensures IsRun(longer) && run <= longer
    ensures var end := longer[|longer| - 1];
      && o in end.orders && end.orders[o].status == Confirmed
      && end.inv.seats == Marked(run[|run| - 1].inv.seats, Ids(req.seats), Sold, None)
  {
    var s := run[|run| - 1];
    var t := Arrived(s, o, req);
    assert Ends(s, Rounds(t, o, 5), o, req) by {
      RunInv(run, |run| - 1);
      UndisturbedPurchase(s, o, req);
    }
    assert Extends(run, run + [t], t) by { ArriveMore(run, o, req); }
    longer := MoreRounds(run + [t], o, 5);
  }

  // ---- held seats included ----

  ghost predicate Unsold(t: Table, event: EventId, ids: seq<SeatId>) {
    forall i :: 0 <= i < |ids| ==> ids[i] in t && t[ids[i]].event == event && t[ids[i]].status != Sold
  }

  ghost function HeldAmong(t: Table, ids: seq<SeatId>): seq<SeatId> {
    if ids == [] then []
    else
      var front, last := HeldAmong(t, ids[..|ids| - 1]), ids[|ids| - 1];
      if last in t && t[last].status == Held then front + [last] else front
  }

  lemma {:induction false} HeldAmongAre(t: Table, ids: seq<SeatId>)
    requires Distinct(ids)
    ensures Distinct(HeldAmong(t, ids))
    ensures forall k :: k in HeldAmong(t, ids) <==> k in ids && k in t && t[k].status == Held
  {
    if ids != [] {
      var front, last := ids[..|ids| - 1], ids[|ids| - 1];
      HeldAmongAre(t, front);
      assert forall k :: k in ids <==> k in front || k == last;
    }
  }

  /** A sweep may free exactly the held ones among these seats. */
  lemma SweepFrees(s: State, event: EventId, ids: seq<SeatId>)
    requires Distinct(ids) && Unsold(s.inv.seats, event, ids) && HeldAmong(s.inv.seats, ids) != []
    ensures var held := HeldAmong(s.inv.seats, ids); var groups := [SeatEvent(event, held, Available, Plain(event, held))];
      Enabled(s, SweepHolds(Ids(held), groups))
  {
    var held := HeldAmong(s.inv.seats, ids);
    HeldAmongAre(s.inv.seats, ids);
    assert Freed(s.inv.seats, Ids(held)) == Ids(held);
    forall k | k in held ensures s.inv.seats[k].event == event {
      var i :| 0 <= i < |ids| && ids[i] == k;
    }
    var groups := [SeatEvent(event, held, Available, Plain(event, held))];
    forall k | k in Ids(held) ensures exists i :: 0 <= i < |groups| && k in groups[i].seats { assert k in groups[0].seats; }
  }

  lemma SweepMore(run: seq<State>, event: EventId, ids: seq<SeatId>) returns (longer: seq<State>)
    requires IsRun(run) && Distinct(ids) && Unsold(run[|run| - 1].inv.seats, event, ids)
    ensures IsRun(longer) && run <= longer
    ensures var s, end := run[|run| - 1], longer[|longer| - 1];
      && end.attempts == s.attempts && end.orders == s.orders && Reservable(end.inv.seats, event, ids)
      && end.inv.seats == Marked(s.inv.seats, Ids(HeldAmong(s.inv.seats, ids)), Available, None)
  {
    var s := run[|run| - 1];
    var held := HeldAmong(s.inv.seats, ids);
    HeldAmongAre(s.inv.seats, ids);
    if held == [] {
      longer := run;
      assert Ids(held) == {};
    } else {
      SweepFrees(s, event, ids);
      var t := Do(s, SweepHolds(Ids(held), [SeatEvent(event, held, Available, Plain(event, held))]));
      assert Freed(s.inv.seats, Ids(held)) == Ids(held);
      OneStepMore(run, t);
      longer := run + [t];
    }
  }

  /** In every reachable state a new customer with a good card can still get any unsold seats, held ones after a sweep. */
  lemma UnsoldSeatsCanBeBought(run: seq<State>, o: OrderId, req: Request) returns (longer: seq<State>)
    requires IsRun(run) && o !in run[|run| - 1].attempts && S.ValidRequest(req) && req.amount % 7 != 0
    requires !I.KeyTaken(run[|run| - 1].orders, req) && Unsold(run[|run| - 1].inv.seats, req.event, req.seats)
    ensures IsRun(longer) && run <= longer
    ensures var end := longer[|longer| - 1];
      && o in end.orders && end.orders[o].status == Confirmed
      && end.inv.seats == Marked(run[|run| - 1].inv.seats, Ids(req.seats), Sold, None)
  {
    var seats := run[|run| - 1].inv.seats;
    var swept := SweepMore(run, req.event, req.seats);
    longer := FreeSeatsCanBeBought(swept, o, req);
    HeldAmongAre(seats, req.seats);
    var held := Ids(HeldAmong(seats, req.seats));
    assert held <= Ids(req.seats);
    assert Marked(Marked(seats, held, Available, None), Ids(req.seats), Sold, None) == Marked(seats, Ids(req.seats), Sold, None);
  }
}
