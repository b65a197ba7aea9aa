/** What every step of the purchase protocol keeps. */
module PurchaseInvariant {
  import opened Domain
  import opened SeatTable
  import opened Purchase
  import S = Saga
  import I = Idempotency

  // ---- order-svc: attempts, rows, keys, outbox ----

  ghost predicate AttemptSound(s: State, o: OrderId) {
    o in s.attempts ==> s.attempts[o].id == o && S.Sound(s.attempts[o]) && S.ValidRequest(s.attempts[o].req)
  }

  ghost predicate AttemptsSound(s: State) {
    forall o :: AttemptSound(s, o)
  }

  /** The row is the request's own, and its status is Pending or exactly the attempt's verdict. */
  ghost predicate RowAgrees(row: OrderRow, a: S.Attempt) {
    && row.(status := Pending, failureReason := None) == NewRow(a.req)
    && (a.insert == S.Answered(Accepted) || a.insert == S.Answered(Broken))
    && match row.status
       case Pending => row.failureReason == None
       case Confirmed => a.verdict == S.ToConfirmed && a.record.Answered? && row.failureReason == None
       case Failed => a.verdict.ToFailed? && a.record.Answered? && row.failureReason == Some(S.ReasonLabel(a.verdict.reason))
  }

  /** An order has a row exactly if its insert was committed, and a verdict in it once a transition was. */
  ghost predicate RowOk(s: State, o: OrderId) {
    && (o in s.orders ==> o in s.attempts && RowAgrees(s.orders[o], s.attempts[o]))
    && (o in s.attempts && s.attempts[o].insert == S.Answered(Accepted) ==> o in s.orders)
    && (o in s.attempts && s.attempts[o].insert == S.Sent ==> o !in s.orders)
    && (o in s.attempts && s.attempts[o].record == S.Answered(Accepted) ==> o in s.orders && s.orders[o].status != Pending)
  }

  ghost predicate RowsAgree(s: State) {
    forall o :: RowOk(s, o)
  }

  ghost predicate KeysUnique(s: State) {
    forall o, p | o in s.orders && p in s.orders && s.orders[o].key.Some?
      :: s.orders[o].user == s.orders[p].user && s.orders[o].key == s.orders[p].key ==> o == p
  }

  /** The outbox rows about one order, in commit order. */
  ghost function Story(outbox: seq<OrderEvent>, o: OrderId): seq<OrderEvent> {
    if outbox == [] then []
    else
      var front := Story(outbox[..|outbox| - 1], o);
      if outbox[|outbox| - 1].order == o then front + [outbox[|outbox| - 1]] else front
  }

  /** What the outbox must hold about an order, given its stored row. */
  ghost function ExpectedStory(s: State, o: OrderId): seq<OrderEvent> {
    if o !in s.orders || o !in s.attempts then []
    else
      var a := s.attempts[o];
      var created := Announce(o, a.req, OrderCreated, Unspecified);
      match s.orders[o].status
      case Pending => [created]
      case Confirmed => [created, Announce(o, a.req, OrderConfirmed, Unspecified)]
      case Failed => [created, Announce(o, a.req, OrderFailed, if a.verdict.ToFailed? then a.verdict.reason else Unspecified)]
  }

  ghost predicate OutboxAgrees(s: State) {
    forall o :: Story(s.outbox, o) == ExpectedStory(s, o)
  }

  // ---- payment-svc ----

  ghost predicate PaidBy(s: State, i: nat)
    requires i < |s.payments|
  {
    var p := s.payments[i];
    && p.order in s.attempts && s.attempts[p.order].charge.Answered?
    && p.amount == s.attempts[p.order].req.amount
    && (p.succeeded <==> p.amount % 7 != 0)
  }

  ghost predicate PaymentsAgree(s: State) {
    && (forall i :: 0 <= i < |s.payments| ==> PaidBy(s, i))
    && (forall i, j :: 0 <= i < j < |s.payments| ==> s.payments[i].order != s.payments[j].order)
    && (forall o :: o in s.attempts && s.attempts[o].charge == S.Answered(Accepted) ==>
          exists i :: 0 <= i < |s.payments| && s.payments[i].order == o && s.payments[i].succeeded)
    && (forall o :: o in s.attempts && s.attempts[o].charge == S.Answered(Refused) ==> s.attempts[o].req.amount % 7 == 0)
  }

  // ---- inventory-svc ----

  ghost predicate SoldBy(s: State, i: nat)
    requires i < |s.sales|
  {
    var Sale(seat, o) := s.sales[i];
    && o in s.attempts && s.attempts[o].confirm.Answered? && s.attempts[o].confirm != S.Answered(Refused)
    && seat in s.attempts[o].req.seats
    && seat in s.inv.seats && s.inv.seats[seat].status == Sold && s.inv.seats[seat].event == s.attempts[o].req.event
  }

  ghost predicate SalesAgree(s: State) {
    && (forall i :: 0 <= i < |s.sales| ==> SoldBy(s, i))
    && (forall i, j :: 0 <= i < j < |s.sales| ==> s.sales[i].seat != s.sales[j].seat)
    && (forall seat :: seat in s.inv.seats && s.inv.seats[seat].status == Sold ==>
          exists i :: 0 <= i < |s.sales| && s.sales[i].seat == seat)
    && (forall o, seat :: o in s.attempts && s.attempts[o].confirm == S.Answered(Accepted) && seat in s.attempts[o].req.seats ==>
          Sale(seat, o) in s.sales)
  }

  ghost predicate SeatsAgree(s: State) {
    LogAgrees(s.inv) && HoldersAgree(s.inv.seats)
  }

  ghost predicate Inv(s: State) {
    && AttemptsSound(s) && RowsAgree(s) && KeysUnique(s) && OutboxAgrees(s)
    && PaymentsAgree(s) && SalesAgree(s) && SeatsAgree(s)
  }

  // ---- an attempt changes, the tables do not ----

  ghost predicate Quiet(f: S.Flight, g: S.Flight, refusable: bool) {
    || f == g
    || (f == S.Unsent && g == S.Sent)
    || (f == S.Sent && (g == S.Answered(Broken) || (refusable && g == S.Answered(Refused))))
  }

  /** Nothing the orders table or its outbox answers for was committed. */
  ghost predicate QuietOrder(a: S.Attempt, b: S.Attempt) {
    && a.req == b.req && Quiet(a.insert, b.insert, true) && a.insert != S.Unsent
    && Quiet(a.record, b.record, false) && (a.record != S.Unsent ==> a.verdict == b.verdict)
  }

  ghost predicate QuietCharge(a: S.Attempt, b: S.Attempt) {
    a.req == b.req && Quiet(a.charge, b.charge, false)
  }

  ghost predicate QuietConfirm(a: S.Attempt, b: S.Attempt) {
    a.req == b.req && Quiet(a.confirm, b.confirm, true)
  }

  ghost predicate AllQuiet(a: S.Attempt, b: S.Attempt) {
    a.id == b.id && QuietOrder(a, b) && QuietCharge(a, b) && QuietConfirm(a, b) && S.Sound(b)
  }

  lemma HearIsQuiet(a: S.Attempt, heard: Reply)
    requires S.Sound(a) && S.MayHear(a, heard)
    ensures AllQuiet(a, S.Hear(a, heard))
  {
    S.HearKeepsSound(a, heard);
  }

  lemma LandIsQuiet(a: S.Attempt, c: S.Call, r: Reply)
    requires S.Sound(a) && S.FlightOf(a, c) == S.Sent
    requires r == Broken || c == S.Reserve || c == S.Release || (r == Refused && (c == S.Insert || c == S.Confirm))
    ensures AllQuiet(a, S.Land(a, c, r))
  {
    S.LandKeepsSound(a, c, r);
  }

  ghost function Moved(s: State, o: OrderId, b: S.Attempt): State {
    s.(attempts := s.attempts[o := b])
  }

  lemma MovedSound(s: State, o: OrderId, b: S.Attempt)
    requires AttemptsSound(s) && o in s.attempts && b.id == o && b.req == s.attempts[o].req && S.Sound(b)
    ensures AttemptsSound(Moved(s, o, b))
  {
    var t := Moved(s, o, b);
    assert AttemptSound(s, o);
    forall p ensures AttemptSound(t, p) { assert AttemptSound(s, p); }
  }

  lemma LandedSound(s: State, d: State, o: OrderId, c: S.Call, r: Reply)
    requires AttemptsSound(s) && d.attempts == s.attempts && o in s.attempts && S.FlightOf(s.attempts[o], c) == S.Sent
    ensures AttemptsSound(Moved(d, o, S.Land(s.attempts[o], c, r)))
  {
    assert AttemptSound(s, o);
    forall p ensures AttemptSound(d, p) { assert AttemptSound(s, p); }
    S.LandKeepsSound(s.attempts[o], c, r);
    MovedSound(d, o, S.Land(s.attempts[o], c, r));
  }

  lemma MovedRows(s: State, o: OrderId, b: S.Attempt)
    requires o in s.attempts && QuietOrder(s.attempts[o], b) && RowsAgree(s)
    ensures RowsAgree(Moved(s, o, b))
  {
    var t := Moved(s, o, b);
    forall p ensures RowOk(t, p) { assert RowOk(s, p); }
  }

  lemma MovedOutbox(s: State, o: OrderId, b: S.Attempt)
    requires o in s.attempts && QuietOrder(s.attempts[o], b) && RowsAgree(s) && OutboxAgrees(s)
    ensures OutboxAgrees(Moved(s, o, b))
  {
    var t := Moved(s, o, b);
    forall p ensures Story(t.outbox, p) == ExpectedStory(t, p) {
      assert Story(s.outbox, p) == ExpectedStory(s, p);
      assert RowOk(s, p);
    }
  }

  lemma MovedPayments(s: State, o: OrderId, b: S.Attempt)
    requires o in s.attempts && QuietCharge(s.attempts[o], b) && PaymentsAgree(s)
    ensures PaymentsAgree(Moved(s, o, b))
  {
    var t := Moved(s, o, b);
    forall i | 0 <= i < |t.payments| ensures PaidBy(t, i) { assert PaidBy(s, i); }
  }

  lemma MovedSales(s: State, o: OrderId, b: S.Attempt)
    requires o in s.attempts && QuietConfirm(s.attempts[o], b) && SalesAgree(s)
    ensures SalesAgree(Moved(s, o, b))
  {
    var t := Moved(s, o, b);
    forall i | 0 <= i < |t.sales| ensures SoldBy(t, i) { assert SoldBy(s, i); }
  }

  lemma MovedInv(s: State, o: OrderId, b: S.Attempt)
    requires o in s.attempts && AllQuiet(s.attempts[o], b) && Inv(s)
    ensures Inv(Moved(s, o, b))
  {
    assert AttemptSound(s, o);
    MovedSound(s, o, b);
    MovedRows(s, o, b);
    MovedOutbox(s, o, b);
    MovedPayments(s, o, b);
    MovedSales(s, o, b);
  }

  // ---- a new attempt arrives ----

  lemma ArriveOrders(s: State, o: OrderId, req: Request)
    requires o !in s.attempts && RowsAgree(s) && OutboxAgrees(s)
    ensures var t := Moved(s, o, S.Begin(o, req)); RowsAgree(t) && OutboxAgrees(t)
  {
    var t := Moved(s, o, S.Begin(o, req));
    forall p ensures RowOk(t, p) { assert RowOk(s, p); }
    forall p ensures Story(t.outbox, p) == ExpectedStory(t, p) {
      assert Story(s.outbox, p) == ExpectedStory(s, p);
      assert RowOk(s, p);
    }
  }

  lemma ArriveOthers(s: State, o: OrderId, req: Request)
    requires o !in s.attempts && PaymentsAgree(s) && SalesAgree(s)
    ensures var t := Moved(s, o, S.Begin(o, req)); PaymentsAgree(t) && SalesAgree(t)
  {
    var t := Moved(s, o, S.Begin(o, req));
    forall i | 0 <= i < |t.payments| ensures PaidBy(t, i) { assert PaidBy(s, i); }
    forall i | 0 <= i < |t.sales| ensures SoldBy(t, i) { assert SoldBy(s, i); }
  }

  lemma ArriveInv(s: State, o: OrderId, req: Request)
    requires Inv(s) && o !in s.attempts && S.ValidRequest(req)
    ensures Inv(Moved(s, o, S.Begin(o, req)))
  {
    var t := Moved(s, o, S.Begin(o, req));
    forall p ensures AttemptSound(t, p) { assert AttemptSound(s, p); }
    ArriveOrders(s, o, req);
    ArriveOthers(s, o, req);
  }

  // ---- the seat table changes, nothing is sold ----

  /** Sold seats stay as they are, and nothing else becomes sold. */
  ghost predicate KeepsSold(t: Table, u: Table) {
    && (forall s :: s in t && t[s].status == Sold ==> s in u && u[s] == t[s])
    && (forall s :: s in u && u[s].status == Sold ==> s in t && t[s].status == Sold)
  }

  lemma KeepsSoldSales(s: State, inv: Inventory)
    requires SalesAgree(s) && KeepsSold(s.inv.seats, inv.seats)
    ensures SalesAgree(s.(inv := inv))
  {
    var t := s.(inv := inv);
    forall i | 0 <= i < |t.sales| ensures SoldBy(t, i) { assert SoldBy(s, i); }
  }

  lemma OtherFields(s: State, t: State)
    requires RowsAgree(s) && OutboxAgrees(s)
    requires t.attempts == s.attempts && t.orders == s.orders && t.outbox == s.outbox
    ensures RowsAgree(t) && OutboxAgrees(t)
  {
    forall o ensures RowOk(t, o) { assert RowOk(s, o); }
    forall o ensures Story(t.outbox, o) == ExpectedStory(t, o) { assert Story(s.outbox, o) == ExpectedStory(s, o); }
  }

  lemma SameAttempts(s: State, t: State)
    requires AttemptsSound(s) && t.attempts == s.attempts
    ensures AttemptsSound(t)
  {
    forall o ensures AttemptSound(t, o) { assert AttemptSound(s, o); }
  }

  lemma SamePayments(s: State, t: State)
    requires PaymentsAgree(s) && t.attempts == s.attempts && t.payments == s.payments
    ensures PaymentsAgree(t)
  {
    forall i | 0 <= i < |t.payments| ensures PaidBy(t, i) { assert PaidBy(s, i); }
  }

  lemma SameSales(s: State, t: State)
    requires SalesAgree(s) && t.attempts == s.attempts && t.sales == s.sales && t.inv == s.inv
    ensures SalesAgree(t)
  {
    forall i | 0 <= i < |t.sales| ensures SoldBy(t, i) { assert SoldBy(s, i); }
  }

  lemma SeatStepInv(s: State, inv: Inventory)
    requires Inv(s) && KeepsSold(s.inv.seats, inv.seats) && LogAgrees(inv) && HoldersAgree(inv.seats)
    ensures Inv(s.(inv := inv))
  {
    SameAttempts(s, s.(inv := inv));
    KeepsSoldSales(s, inv);
    OtherFields(s, s.(inv := inv));
    SamePayments(s, s.(inv := inv));
  }

  // ---- a server carries out a call ----

  /** A call that comes to nothing. */
  lemma QuietInv(s: State, o: OrderId, c: S.Call, r: Reply)
    requires Inv(s) && o in s.attempts && S.FlightOf(s.attempts[o], c) == S.Sent
    requires r == Broken || c == S.Reserve || c == S.Release || (r == Refused && (c == S.Insert || c == S.Confirm))
    ensures Inv(Moved(s, o, S.Land(s.attempts[o], c, r)))
  {
    assert AttemptSound(s, o);
    LandIsQuiet(s.attempts[o], c, r);
    MovedInv(s, o, S.Land(s.attempts[o], c, r));
  }

  lemma ReserveInv(s: State, o: OrderId)
    requires Inv(s) && o in s.attempts
    ensures Inv(Effect(s, o, s.attempts[o], S.Reserve).0)
  {
    var r := s.attempts[o].req;
    assert AttemptSound(s, o);
    ReserveKeepsLog(s.inv, r.event, r.seats, o, r.words);
    SeatStepInv(s, Reserve(s.inv, r.event, r.seats, o, r.words).0);
  }

  lemma ReleaseInv(s: State, o: OrderId)
    requires Inv(s) && o in s.attempts
    ensures Inv(Effect(s, o, s.attempts[o], S.Release).0)
  {
    var r := s.attempts[o].req;
    assert AttemptSound(s, o);
    MoveKeepsLog(s.inv, r.event, r.seats, o, Available, r.words);
    SeatStepInv(s, Move(s.inv, r.event, r.seats, o, Available, r.words).0);
  }

  /** Confirming moves seats that were held, so none of them was sold before, to this order. */
  lemma ConfirmSales(s: State, o: OrderId, r: Reply)
    requires SalesAgree(s) && o in s.attempts && s.attempts[o].confirm == S.Sent
    requires S.ValidRequest(s.attempts[o].req) && r != Refused
    requires HeldBy(s.inv.seats, s.attempts[o].req.event, s.attempts[o].req.seats, o)
    ensures SalesAgree(Moved(Effect(s, o, s.attempts[o], S.Confirm).0, o, S.Land(s.attempts[o], S.Confirm, r)))
  {
    var a := s.attempts[o];
    var t := Moved(Effect(s, o, a, S.Confirm).0, o, S.Land(a, S.Confirm, r));
    var n := |s.sales|;
    assert t.sales == s.sales + SalesOf(o, a.req.seats);
    forall i | 0 <= i < |t.sales| ensures SoldBy(t, i) {
      if i < n { assert SoldBy(s, i); } else { assert a.req.seats[i - n] in Ids(a.req.seats); }
    }
    forall i, j | 0 <= i < j < |t.sales| ensures t.sales[i].seat != t.sales[j].seat {
      if i < n { assert SoldBy(s, i); }
    }
    forall seat | seat in t.inv.seats && t.inv.seats[seat].status == Sold
      ensures exists i :: 0 <= i < |t.sales| && t.sales[i].seat == seat
    {
      if seat in a.req.seats {
        var k :| 0 <= k < |a.req.seats| && a.req.seats[k] == seat;
        assert t.sales[n + k].seat == seat;
      } else {
        var i :| 0 <= i < n && s.sales[i].seat == seat;
        assert t.sales[i].seat == seat;
      }
    }
    forall p, seat | p in t.attempts && t.attempts[p].confirm == S.Answered(Accepted) && seat in t.attempts[p].req.seats
      ensures Sale(seat, p) in t.sales
    {
      if p == o {
        var k :| 0 <= k < |a.req.seats| && a.req.seats[k] == seat;
        assert t.sales[n + k] == Sale(seat, p);
      }
    }
  }

  lemma ConfirmInv(s: State, o: OrderId, fault: Fault)
    requires Inv(s) && o in s.attempts && s.attempts[o].confirm == S.Sent
    ensures Inv(Executed(s, o, S.Confirm, fault))
  {
    var a := s.attempts[o];
    var (d, r) := Effect(s, o, a, S.Confirm);
    var heard := if fault == Clean then r else Broken;
    if fault == RolledBack || r == Refused {
      QuietInv(s, o, S.Confirm, heard);
    } else {
      var b := S.Land(a, S.Confirm, heard);
      var t := Moved(d, o, b);
      assert AttemptSound(s, o);
      assert AttemptsSound(t) by { LandedSound(s, d, o, S.Confirm, heard); }
      assert SalesAgree(t) by { ConfirmSales(s, o, heard); }
      assert SeatsAgree(t) by { MoveKeepsLog(s.inv, a.req.event, a.req.seats, o, Sold, a.req.words); }
      assert RowsAgree(t) && OutboxAgrees(t) by { OtherFields(s, d); MovedRows(d, o, b); MovedOutbox(d, o, b); }
      assert PaymentsAgree(t) by { SamePayments(s, d); MovedPayments(d, o, b); }
    }
  }

  lemma ChargePayments(s: State, o: OrderId, heard: Reply)
    requires PaymentsAgree(s) && o in s.attempts && s.attempts[o].charge == S.Sent
    requires heard == Broken || heard == Charge(s.payments, o, s.attempts[o].req.amount).1
    ensures PaymentsAgree(Moved(Effect(s, o, s.attempts[o], S.Charge).0, o, S.Land(s.attempts[o], S.Charge, heard)))
  {
    var a := s.attempts[o];
    var t := Moved(Effect(s, o, a, S.Charge).0, o, S.Land(a, S.Charge, heard));
    var n := |s.payments|;
    forall i | 0 <= i < |t.payments| ensures PaidBy(t, i) {
      if i < n { assert PaidBy(s, i); }
    }
    forall i, j | 0 <= i < j < |t.payments| ensures t.payments[i].order != t.payments[j].order {
      assert PaidBy(s, i);
    }
    forall p | p in t.attempts && t.attempts[p].charge == S.Answered(Accepted)
      ensures exists i :: 0 <= i < |t.payments| && t.payments[i].order == p && t.payments[i].succeeded
    {
      if p == o {
        assert t.payments[n].order == o;
      } else {
        var i :| 0 <= i < n && s.payments[i].order == p && s.payments[i].succeeded;
        assert t.payments[i].order == p;
      }
    }
  }

  lemma ChargeInv(s: State, o: OrderId, fault: Fault)
    requires Inv(s) && o in s.attempts && s.attempts[o].charge == S.Sent
    ensures Inv(Executed(s, o, S.Charge, fault))
  {
    var a := s.attempts[o];
    var (d, r) := Effect(s, o, a, S.Charge);
    var heard := if fault == Clean then r else Broken;
    if fault == RolledBack {
      QuietInv(s, o, S.Charge, heard);
    } else {
      var b := S.Land(a, S.Charge, heard);
      var t := Moved(d, o, b);
      assert AttemptSound(s, o);
      assert AttemptsSound(t) by { LandedSound(s, d, o, S.Charge, heard); }
      assert PaymentsAgree(t) by { ChargePayments(s, o, heard); }
      assert RowsAgree(t) && OutboxAgrees(t) by { OtherFields(s, d); MovedRows(d, o, b); MovedOutbox(d, o, b); }
      assert SalesAgree(t) by { SameSales(s, d); MovedSales(d, o, b); }
    }
  }

  lemma StoryOne(outbox: seq<OrderEvent>, e: OrderEvent, o: OrderId)
    ensures Story(outbox + [e], o) == if e.order == o then Story(outbox, o) + [e] else Story(outbox, o)
  {
    assert (outbox + [e])[..|outbox|] == outbox;
  }

  lemma InsertOutbox(s: State, o: OrderId, heard: Reply)
    requires RowsAgree(s) && OutboxAgrees(s) && o in s.attempts && s.attempts[o].insert == S.Sent
    requires S.Sound(s.attempts[o]) && !I.KeyTaken(s.orders, s.attempts[o].req) && heard != Refused
    ensures OutboxAgrees(Moved(InsertOrder(s, o, s.attempts[o].req).0, o, S.Land(s.attempts[o], S.Insert, heard)))
  {
    var a := s.attempts[o];
    var t := Moved(InsertOrder(s, o, a.req).0, o, S.Land(a, S.Insert, heard));
    forall p ensures Story(t.outbox, p) == ExpectedStory(t, p) {
      assert Story(s.outbox, p) == ExpectedStory(s, p);
      assert RowOk(s, p);
      StoryOne(s.outbox, Announce(o, a.req, OrderCreated, Unspecified), p);
    }
  }

  lemma InsertRows(s: State, o: OrderId, heard: Reply)
    requires RowsAgree(s) && o in s.attempts && s.attempts[o].insert == S.Sent
    requires S.Sound(s.attempts[o]) && !I.KeyTaken(s.orders, s.attempts[o].req) && heard != Refused
    ensures RowsAgree(Moved(InsertOrder(s, o, s.attempts[o].req).0, o, S.Land(s.attempts[o], S.Insert, heard)))
  {
    var a := s.attempts[o];
    var t := Moved(InsertOrder(s, o, a.req).0, o, S.Land(a, S.Insert, heard));
    forall p ensures RowOk(t, p) { assert RowOk(s, p); }
  }

  lemma InsertKeys(s: State, o: OrderId, r: Request)
    requires KeysUnique(s) && !I.KeyTaken(s.orders, r)
    ensures KeysUnique(InsertOrder(s, o, r).0)
  {
    var t := InsertOrder(s, o, r).0;
    forall p, q | p in t.orders && q in t.orders && t.orders[p].key.Some?
      ensures t.orders[p].user == t.orders[q].user && t.orders[p].key == t.orders[q].key ==> p == q
    {
      if p == o && q != o { assert !I.SameKey(s.orders[q], r); }
      if q == o && p != o { assert !I.SameKey(s.orders[p], r); }
    }
  }

  /** Only the orders table decides. */
  lemma SameKeys(s: State, t: State)
    requires KeysUnique(s) && t.orders == s.orders
    ensures KeysUnique(t)
  {
  }

  lemma InsertInv(s: State, o: OrderId, fault: Fault)
    requires Inv(s) && o in s.attempts && s.attempts[o].insert == S.Sent
    ensures Inv(Executed(s, o, S.Insert, fault))
  {
    var a := s.attempts[o];
    var (d, r) := Effect(s, o, a, S.Insert);
    var heard := if fault == Clean then r else Broken;
    if fault == RolledBack || r == Refused {
      QuietInv(s, o, S.Insert, heard);
    } else {
      var b := S.Land(a, S.Insert, heard);
      var t := Moved(d, o, b);
      assert AttemptSound(s, o);
      assert AttemptsSound(t) by { LandedSound(s, d, o, S.Insert, heard); }
      assert RowsAgree(t) by { InsertRows(s, o, heard); }
      assert KeysUnique(t) by { InsertKeys(s, o, a.req); SameKeys(d, t); }
      assert OutboxAgrees(t) by { InsertOutbox(s, o, heard); }
      assert PaymentsAgree(t) by { SamePayments(s, d); MovedPayments(d, o, b); }
      assert SalesAgree(t) by { SameSales(s, d); MovedSales(d, o, b); }
    }
  }

  /** The row a transition leaves. The UPDATE has no guard: that the row was Pending comes from the control flow. */
  ghost function Verdicted(row: OrderRow, v: S.Verdict): OrderRow {
    match v
    case Undecided => row
    case ToConfirmed => row.(status := Confirmed, failureReason := None)
    case ToFailed(why) => row.(status := Failed, failureReason := Some(S.ReasonLabel(why)))
  }

  lemma RecordedTables(s: State, o: OrderId, a: S.Attempt)
    requires o in s.orders && a.verdict != S.Undecided
    ensures var t := RecordVerdict(s, o, a).0;
      && t.orders == s.orders[o := Verdicted(s.orders[o], a.verdict)] && t.attempts == s.attempts
      && t.outbox == s.outbox + [if a.verdict.ToConfirmed? then Announce(o, a.req, OrderConfirmed, Unspecified)
                                 else Announce(o, a.req, OrderFailed, a.verdict.reason)]
  {
  }

  lemma VerdictedAgrees(row: OrderRow, a: S.Attempt, heard: Reply)
    requires RowAgrees(row, a) && S.Ordered(a) && a.record == S.Sent
    ensures row.status == Pending && RowAgrees(Verdicted(row, a.verdict), S.Land(a, S.Record, heard))
  {
  }

  lemma RecordRows(s: State, o: OrderId, heard: Reply)
    requires RowsAgree(s) && o in s.attempts && s.attempts[o].record == S.Sent
    requires S.Ordered(s.attempts[o]) && o in s.orders && heard != Refused
    ensures RowsAgree(Moved(RecordVerdict(s, o, s.attempts[o]).0, o, S.Land(s.attempts[o], S.Record, heard)))
  {
    var a := s.attempts[o];
    RecordedTables(s, o, a);
    assert RowOk(s, o);
    VerdictedAgrees(s.orders[o], a, heard);
    var t := Moved(RecordVerdict(s, o, a).0, o, S.Land(a, S.Record, heard));
    forall p ensures RowOk(t, p) { assert RowOk(s, p); }
  }

  lemma RecordKeys(s: State, o: OrderId, a: S.Attempt)
    requires KeysUnique(s) && o in s.orders && a.verdict != S.Undecided
    ensures KeysUnique(RecordVerdict(s, o, a).0)
  {
    RecordedTables(s, o, a);
  }

  lemma RecordOutbox(s: State, o: OrderId, heard: Reply)
    requires RowsAgree(s) && OutboxAgrees(s) && o in s.attempts && s.attempts[o].record == S.Sent
    requires S.Ordered(s.attempts[o]) && o in s.orders
    ensures OutboxAgrees(Moved(RecordVerdict(s, o, s.attempts[o]).0, o, S.Land(s.attempts[o], S.Record, heard)))
  {
    var a := s.attempts[o];
    RecordedTables(s, o, a);
    assert RowOk(s, o);
    VerdictedAgrees(s.orders[o], a, heard);
    var t := Moved(RecordVerdict(s, o, a).0, o, S.Land(a, S.Record, heard));
    forall p ensures Story(t.outbox, p) == ExpectedStory(t, p) {
      assert Story(s.outbox, p) == ExpectedStory(s, p);
      StoryOne(s.outbox, t.outbox[|s.outbox|], p);
    }
  }

  lemma RecordedInv(s: State, o: OrderId, heard: Reply)
    requires Inv(s) && o in s.attempts && s.attempts[o].record == S.Sent
    requires Effect(s, o, s.attempts[o], S.Record).1 == Accepted && (heard == Accepted || heard == Broken)
    ensures Inv(Moved(Effect(s, o, s.attempts[o], S.Record).0, o, S.Land(s.attempts[o], S.Record, heard)))
  {
    var a := s.attempts[o];
    var d, b := RecordVerdict(s, o, a).0, S.Land(a, S.Record, heard);
    var t := Moved(d, o, b);
    assert AttemptSound(s, o);
    assert AttemptsSound(t) by { LandedSound(s, d, o, S.Record, heard); }
    assert RowsAgree(t) by { RecordRows(s, o, heard); }
    assert KeysUnique(t) by { RecordKeys(s, o, a); SameKeys(d, t); }
    assert OutboxAgrees(t) by { RecordOutbox(s, o, heard); }
    assert PaymentsAgree(t) by { SamePayments(s, d); MovedPayments(d, o, b); }
    assert SalesAgree(t) by { SameSales(s, d); MovedSales(d, o, b); }
  }

  lemma RecordInv(s: State, o: OrderId, fault: Fault)
    requires Inv(s) && o in s.attempts && s.attempts[o].record == S.Sent
    ensures Inv(Executed(s, o, S.Record, fault))
  {
    var a := s.attempts[o];
    var (d, r) := Effect(s, o, a, S.Record);
    var heard := if fault == Clean then r else Broken;
    if fault == RolledBack || r != Accepted {
      QuietInv(s, o, S.Record, heard);
    } else {
      RecordedInv(s, o, heard);
    }
  }

  lemma ExecuteInv(s: State, o: OrderId, c: S.Call, fault: Fault)
    requires Inv(s) && o in s.attempts && S.FlightOf(s.attempts[o], c) == S.Sent
    ensures Inv(Executed(s, o, c, fault))
  {
    match c
    case Insert => InsertInv(s, o, fault);
    case Charge => ChargeInv(s, o, fault);
    case Confirm => ConfirmInv(s, o, fault);
    case Record => RecordInv(s, o, fault);
    case _ =>
      var a := s.attempts[o];
      var (d, r) := Effect(s, o, a, c);
      var heard := if fault == Clean then r else Broken;
      if c == S.Reserve { ReserveInv(s, o); } else { ReleaseInv(s, o); }
      QuietInv(if fault == RolledBack then s else d, o, c, heard);
  }

  // ---- every step, every run ----

  lemma InitInv()
    ensures Inv(INIT)
  {
  }

  lemma SeatOnlyInv(s: State, st: Step)
    requires Inv(s) && Enabled(s, st) && (st.CreateEvent? || st.SweepHolds?)
    ensures Inv(Do(s, st))
  {
    match st
    case CreateEvent(event, seats) =>
      CreateKeepsLog(s.inv, event, seats);
      SeatStepInv(s, s.inv.(seats := s.inv.seats + NewSeats(event, seats)));
    case SweepHolds(expired, groups) =>
      SweepKeepsLog(s.inv, expired, groups);
      SeatStepInv(s, Sweep(s.inv, expired, groups));
  }

  lemma AttemptOnlyQuiet(s: State, st: Step)
    requires AttemptsSound(s) && Enabled(s, st) && (st.Deliver? || st.Replay? || st.Crash?)
    ensures var t := Do(s, st);
            AllQuiet(s.attempts[st.order], t.attempts[st.order]) && t == Moved(s, st.order, t.attempts[st.order])
  {
    assert AttemptSound(s, st.order);
    if st.Deliver? { HearIsQuiet(s.attempts[st.order], st.heard); }
  }

  lemma StepInv(s: State, st: Step)
    requires Inv(s) && Enabled(s, st)
    ensures Inv(Do(s, st))
  {
    match st
    case Arrive(o, req) => ArriveInv(s, o, req);
    case Execute(o, c, fault) => ExecuteInv(s, o, c, fault);
    case CreateEvent(_, _) => SeatOnlyInv(s, st);
    case SweepHolds(_, _) => SeatOnlyInv(s, st);
    case _ =>
      AttemptOnlyQuiet(s, st);
      MovedInv(s, st.order, Do(s, st).attempts[st.order]);
  }

  /** The invariant holds in every state of every run. */
  lemma NextInv(s: State, t: State)
    requires Inv(s) && Next(s, t)
    ensures Inv(t)
  {
    var st :| Enabled(s, st) && t == Do(s, st);
    StepInv(s, st);
  }

  lemma {:induction false} RunInv(run: seq<State>, i: nat)
    requires IsRun(run) && i < |run|
    ensures Inv(run[i])
  {
    if i == 0 {
      InitInv();
    } else {
      RunInv(run, i - 1);
      assert Linked(run, i);
      NextInv(run[i - 1], run[i]);
    }
  }
}
