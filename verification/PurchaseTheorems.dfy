/** What the purchase protocol guarantees over whole runs. */
module PurchaseTheorems {
  import opened Domain
  import opened SeatTable
  import opened Purchase
  import opened PurchaseInvariant
  import S = Saga
  import I = Idempotency

  // ---- nothing that was decided is ever undone ----

  ghost predicate Persists(f: S.Flight, g: S.Flight) {
    (f != S.Unsent ==> g != S.Unsent) && (f.Answered? ==> g == f)
  }

  ghost predicate AttemptPersists(a: S.Attempt, b: S.Attempt) {
    && a.req == b.req && Persists(a.insert, b.insert) && Persists(a.reserve, b.reserve) && Persists(a.charge, b.charge)
    && Persists(a.confirm, b.confirm) && Persists(a.release, b.release) && Persists(a.record, b.record)
    && (a.verdict != S.Undecided ==> b.verdict == a.verdict)
  }

  ghost predicate AttemptsPersist(s: State, t: State) {
    forall o :: o in s.attempts ==> o in t.attempts && AttemptPersists(s.attempts[o], t.attempts[o])
  }

  /** A sold seat stays sold, a confirmed or failed order stays as recorded, and rows are only ever added. */
  ghost predicate TablesPersist(s: State, t: State) {
    SeatsPersist(s.inv.seats, t.inv.seats) && OrdersPersist(s.orders, t.orders)
  }

  ghost predicate LogsPersist(s: State, t: State) {
    s.outbox <= t.outbox && s.payments <= t.payments && s.sales <= t.sales && s.inv.log <= t.inv.log
  }

  ghost predicate Later(s: State, t: State) {
    AttemptsPersist(s, t) && TablesPersist(s, t) && LogsPersist(s, t)
  }

  lemma HearPersists(a: S.Attempt, heard: Reply)
    requires S.Sound(a) && S.MayHear(a, heard)
    ensures AttemptPersists(a, S.Hear(a, heard))
  {
  }

  lemma LandPersists(a: S.Attempt, c: S.Call, r: Reply)
    requires S.FlightOf(a, c) == S.Sent
    ensures AttemptPersists(a, S.Land(a, c, r))
  {
  }

  lemma ExecuteAttempts(s: State, o: OrderId, c: S.Call, fault: Fault)
    requires o in s.attempts && S.FlightOf(s.attempts[o], c) == S.Sent
    ensures AttemptsPersist(s, Executed(s, o, c, fault))
  {
    var a := s.attempts[o];
    var r := if fault == Clean then Effect(s, o, a, c).1 else Broken;
    var b := S.Land(a, c, r);
    LandPersists(a, c, r);
    assert Executed(s, o, c, fault).attempts == s.attempts[o := b];
    assert AttemptsPersist(s, Moved(s, o, b));
  }

  lemma OnePersists(s: State, t: State, o: OrderId)
    requires o in s.attempts && o in t.attempts && t.attempts == s.attempts[o := t.attempts[o]]
    requires AttemptPersists(s.attempts[o], t.attempts[o])
    ensures AttemptsPersist(s, t)
  {
    forall p | p in s.attempts ensures p in t.attempts && AttemptPersists(s.attempts[p], t.attempts[p]) {}
  }

  lemma StepAttempts(s: State, st: Step)
    requires AttemptsSound(s) && Enabled(s, st)
    ensures AttemptsPersist(s, Do(s, st))
  {
    match st
    case Deliver(o, heard) =>
      assert AttemptSound(s, o);
      HearPersists(s.attempts[o], heard);
      OnePersists(s, Do(s, st), o);
    case Execute(o, c, fault) => ExecuteAttempts(s, o, c, fault);
    case Replay(o, source) => OnePersists(s, Do(s, st), o);
    case Crash(o) => OnePersists(s, Do(s, st), o);
    case _ =>
  }

  ghost predicate SeatsPersist(s: Table, t: Table) {
    && (forall k :: k in s ==> k in t && t[k].event == s[k].event)
    && (forall k :: k in s && s[k].status == Sold ==> t[k] == s[k])
  }

  ghost predicate OrdersPersist(s: map<OrderId, OrderRow>, t: map<OrderId, OrderRow>) {
    forall o :: o in s ==> o in t && (s[o].status != Pending ==> t[o] == s[o])
  }

  lemma ReserveSpares(inv: Inventory, event: EventId, ids: seq<SeatId>, o: OrderId, words: Words)
    ensures SeatsPersist(inv.seats, Reserve(inv, event, ids, o, words).0.seats) && inv.log <= Reserve(inv, event, ids, o, words).0.log
  {
  }

  lemma MoveSpares(inv: Inventory, event: EventId, ids: seq<SeatId>, o: OrderId, to: SeatStatus, words: Words)
    ensures SeatsPersist(inv.seats, Move(inv, event, ids, o, to, words).0.seats) && inv.log <= Move(inv, event, ids, o, to, words).0.log
  {
  }

  lemma SweepSpares(inv: Inventory, expired: set<SeatId>, groups: seq<SeatEvent>)
    ensures SeatsPersist(inv.seats, Sweep(inv, expired, groups).seats) && inv.log <= Sweep(inv, expired, groups).log
  {
  }

  /** A call carried out only adds: on the seats, */
  lemma EffectSeats(s: State, o: OrderId, a: S.Attempt, c: S.Call)
    ensures SeatsPersist(s.inv.seats, Effect(s, o, a, c).0.inv.seats) && s.inv.log <= Effect(s, o, a, c).0.inv.log
  {
    match c
    case Reserve => ReserveSpares(s.inv, a.req.event, a.req.seats, o, a.req.words);
    case Confirm => MoveSpares(s.inv, a.req.event, a.req.seats, o, Sold, a.req.words);
    case Release => MoveSpares(s.inv, a.req.event, a.req.seats, o, Available, a.req.words);
    case _ =>
  }

  /** and on the orders, whose verdict is recorded once. */
  lemma EffectOrders(s: State, o: OrderId, c: S.Call)
    requires RowsAgree(s) && o in s.attempts && S.FlightOf(s.attempts[o], c) == S.Sent
    ensures var t := Effect(s, o, s.attempts[o], c).0;
      OrdersPersist(s.orders, t.orders) && s.outbox <= t.outbox && s.payments <= t.payments && s.sales <= t.sales
  {
    assert RowOk(s, o);
    match c
    case Insert =>
    case Record =>
    case _ =>
  }

  lemma ExecuteTables(s: State, o: OrderId, c: S.Call, fault: Fault)
    requires RowsAgree(s) && o in s.attempts && S.FlightOf(s.attempts[o], c) == S.Sent
    ensures TablesPersist(s, Executed(s, o, c, fault)) && LogsPersist(s, Executed(s, o, c, fault))
  {
    EffectSeats(s, o, s.attempts[o], c);
    EffectOrders(s, o, c);
  }

  lemma StepTables(s: State, st: Step)
    requires RowsAgree(s) && Enabled(s, st)
    ensures TablesPersist(s, Do(s, st)) && LogsPersist(s, Do(s, st))
  {
    match st
    case Execute(o, c, fault) => ExecuteTables(s, o, c, fault);
    case SweepHolds(expired, groups) => SweepSpares(s.inv, expired, groups);
    case _ =>
  }

  lemma StepLater(s: State, st: Step)
    requires Inv(s) && Enabled(s, st)
    ensures Later(s, Do(s, st))
  {
    StepAttempts(s, st);
    StepTables(s, st);
  }

  lemma NextLater(s: State, t: State)
    requires Inv(s) && Next(s, t)
    ensures Later(s, t)
  {
    var st :| Enabled(s, st) && t == Do(s, st);
    StepLater(s, st);
  }

  lemma LaterSame(s: State)
    ensures Later(s, s)
  {
  }

  lemma LaterTransitive(s: State, t: State, u: State)
    requires Later(s, t) && Later(t, u)
    ensures Later(s, u)
  {
    forall o | o in s.attempts ensures o in u.attempts && AttemptPersists(s.attempts[o], u.attempts[o]) {
      assert AttemptPersists(s.attempts[o], t.attempts[o]);
      assert AttemptPersists(t.attempts[o], u.attempts[o]);
    }
  }

  /** Over any stretch of any run: no sale, verdict, payment or announcement is taken back. */
  lemma {:induction false} NothingIsUndone(run: seq<State>, i: nat, j: nat)
    requires IsRun(run) && i <= j < |run|
    ensures Later(run[i], run[j])
    decreases j
  {
    if i < j {
      NothingIsUndone(run, i, j - 1);
      assert Later(run[j - 1], run[j]) by {
        RunInv(run, j - 1);
        assert Linked(run, j);
        NextLater(run[j - 1], run[j]);
      }
      LaterTransitive(run[i], run[j - 1], run[j]);
    }
  }

  // ---- a seat sells once ----

  /** No seat is sold twice, and SOLD seats are exactly the ones some confirmation took. */
  lemma SeatSellsOnce(run: seq<State>, i: nat)
    requires IsRun(run) && i < |run|
    ensures var s := run[i];
      && (forall m, n :: 0 <= m < |s.sales| && 0 <= n < |s.sales| && s.sales[m].seat == s.sales[n].seat ==> m == n)
      && (forall k :: k in s.inv.seats ==> (s.inv.seats[k].status == Sold <==> exists m :: 0 <= m < |s.sales| && s.sales[m].seat == k))
  {
    RunInv(run, i);
    var s := run[i];
    forall k, m | k in s.inv.seats && 0 <= m < |s.sales| && s.sales[m].seat == k ensures s.inv.seats[k].status == Sold {
      assert SoldBy(s, m);
    }
  }

  /** A confirmed order owns all of its seats. */
  lemma ConfirmedOwnsSeats(s: State, o: OrderId)
    requires Inv(s) && o in s.orders && s.orders[o].status == Confirmed
    ensures forall k :: k in s.orders[o].seats ==>
      Sale(k, o) in s.sales && k in s.inv.seats && s.inv.seats[k].status == Sold && s.inv.seats[k].event == s.orders[o].event
  {
    assert AttemptSound(s, o) && RowOk(s, o);
    forall k | k in s.orders[o].seats ensures
      Sale(k, o) in s.sales && k in s.inv.seats && s.inv.seats[k].status == Sold && s.inv.seats[k].event == s.orders[o].event
    {
      assert Sale(k, o) in s.sales;
      var m :| 0 <= m < |s.sales| && s.sales[m] == Sale(k, o);
      assert SoldBy(s, m);
    }
  }

  lemma SharedSeatSameOrder(s: State, o: OrderId, p: OrderId, k: SeatId)
    requires Inv(s) && o in s.orders && p in s.orders && s.orders[o].status == Confirmed && s.orders[p].status == Confirmed
    requires k in s.orders[o].seats && k in s.orders[p].seats
    ensures o == p
  {
    ConfirmedOwnsSeats(s, o);
    ConfirmedOwnsSeats(s, p);
    var m :| 0 <= m < |s.sales| && s.sales[m] == Sale(k, o);
    var n :| 0 <= n < |s.sales| && s.sales[n] == Sale(k, p);
  }

  /** Two confirmed orders never share a seat, and each one's seats are SOLD, to it, under its event. */
  lemma ConfirmedOrdersAreDisjoint(run: seq<State>, i: nat, o: OrderId, p: OrderId)
    requires IsRun(run) && i < |run|
    requires o in run[i].orders && run[i].orders[o].status == Confirmed
    ensures forall k :: k in run[i].orders[o].seats ==> Sale(k, o) in run[i].sales && k in run[i].inv.seats
    ensures forall k :: k in run[i].orders[o].seats ==>
      run[i].inv.seats[k].status == Sold && run[i].inv.seats[k].event == run[i].orders[o].event
    ensures p in run[i].orders && run[i].orders[p].status == Confirmed && p != o ==>
      forall k :: k in run[i].orders[o].seats ==> k !in run[i].orders[p].seats
  {
    RunInv(run, i);
    var s := run[i];
    ConfirmedOwnsSeats(s, o);
    if p in s.orders && s.orders[p].status == Confirmed {
      forall k | k in s.orders[o].seats && k in s.orders[p].seats ensures o == p {
        SharedSeatSameOrder(s, o, p, k);
      }
    }
  }

  /** Once an order is recorded as failed, no seat has been or will be sold to it. */
  lemma FailedOrdersBuyNothing(run: seq<State>, i: nat, j: nat, o: OrderId)
    requires IsRun(run) && i <= j < |run|
    requires o in run[i].orders && run[i].orders[o].status == Failed
    ensures forall m :: 0 <= m < |run[j].sales| ==> run[j].sales[m].order != o
  {
    NothingIsUndone(run, i, j);
    RunInv(run, j);
    var s := run[j];
    assert AttemptSound(s, o) && RowOk(s, o);
    forall m | 0 <= m < |s.sales| ensures s.sales[m].order != o { assert SoldBy(s, m); }
  }

  // ---- money ----

  ghost predicate Charged(s: State, o: OrderId) {
    exists m :: 0 <= m < |s.payments| && s.payments[m].order == o && s.payments[m].succeeded
  }

  /** Each order is charged at most once, for its own amount, and only if the amount is not declined. */
  lemma ChargedAtMostOnce(run: seq<State>, i: nat, m: nat, n: nat)
    requires IsRun(run) && i < |run| && m < |run[i].payments| && n < |run[i].payments|
    requires run[i].payments[m].order == run[i].payments[n].order
    ensures m == n
    ensures var p := run[i].payments[m];
      p.order in run[i].orders && p.amount == run[i].orders[p.order].amount && (p.succeeded <==> p.amount % 7 != 0)
  {
    RunInv(run, i);
    var s := run[i];
    assert m == n || m < n || n < m;
    assert PaidBy(s, m);
    var o := s.payments[m].order;
    assert AttemptSound(s, o) && RowOk(s, o);
  }

  /** A confirmed order has been paid for; money taken is for an order confirmed, undecided, or failed by a breakdown. */
  lemma MoneyIsAccountedFor(run: seq<State>, i: nat, o: OrderId)
    requires IsRun(run) && i < |run|
    ensures o in run[i].orders && run[i].orders[o].status == Confirmed ==> Charged(run[i], o)
    ensures Charged(run[i], o) ==> o in run[i].orders
    ensures Charged(run[i], o) && run[i].orders[o].status == Failed ==>
      run[i].orders[o].failureReason == Some(S.ReasonLabel(ServiceUnavailable))
  {
    RunInv(run, i);
    var s := run[i];
    assert AttemptSound(s, o) && RowOk(s, o);
    if Charged(s, o) {
      var m :| 0 <= m < |s.payments| && s.payments[m].order == o && s.payments[m].succeeded;
      assert PaidBy(s, m);
    }
  }

  // ---- announcements ----

  lemma {:induction false} InItsStory(outbox: seq<OrderEvent>, i: nat)
    requires i < |outbox|
    ensures outbox[i] in Story(outbox, outbox[i].order)
  {
    if i < |outbox| - 1 {
      InItsStory(outbox[..|outbox| - 1], i);
    }
  }

  ghost predicate Precedes(story: seq<OrderEvent>, a: OrderEvent, b: OrderEvent) {
    exists i, j :: 0 <= i < j < |story| && story[i] == a && story[j] == b
  }

  lemma PrecedesStill(story: seq<OrderEvent>, a: OrderEvent, b: OrderEvent, more: seq<OrderEvent>)
    requires Precedes(story, a, b)
    ensures Precedes(story + more, a, b)
  {
    var i, j :| 0 <= i < j < |story| && story[i] == a && story[j] == b;
    assert (story + more)[i] == a && (story + more)[j] == b;
  }

  lemma {:induction false} TwoInTheStory(outbox: seq<OrderEvent>, m: nat, n: nat)
    requires m < n < |outbox| && outbox[m].order == outbox[n].order
    ensures Precedes(Story(outbox, outbox[n].order), outbox[m], outbox[n])
  {
    var front, o, last := outbox[..|outbox| - 1], outbox[n].order, outbox[|outbox| - 1];
    if n == |outbox| - 1 {
      InItsStory(front, m);
      var i :| 0 <= i < |Story(front, o)| && Story(front, o)[i] == outbox[m];
      assert Story(outbox, o)[i] == outbox[m] && Story(outbox, o)[|Story(front, o)|] == outbox[n];
    } else {
      TwoInTheStory(front, m, n);
      assert Story(outbox, o) == Story(front, o) + if last.order == o then [last] else [];
      PrecedesStill(Story(front, o), outbox[m], outbox[n], if last.order == o then [last] else []);
    }
  }

  /** A verdict row is the order's stored verdict, and the only one about that order. */
  lemma VerdictRow(s: State, m: nat)
    requires Inv(s) && m < |s.outbox| && s.outbox[m].typ != OrderCreated
    ensures var e := s.outbox[m];
      && e.order in s.orders && e.user == s.orders[e.order].user && e.event == s.orders[e.order].event
      && e.seats == s.orders[e.order].seats && e.amount == s.orders[e.order].amount
      && s.orders[e.order].status == (if e.typ == OrderConfirmed then Confirmed else Failed)
    ensures forall n :: 0 <= n < |s.outbox| && s.outbox[n].typ != OrderCreated && s.outbox[n].order == s.outbox[m].order ==> n == m
  {
    var e := s.outbox[m];
    InItsStory(s.outbox, m);
    assert Story(s.outbox, e.order) == ExpectedStory(s, e.order);
    assert AttemptSound(s, e.order) && RowOk(s, e.order);
    forall n | 0 <= n < |s.outbox| && s.outbox[n].typ != OrderCreated && s.outbox[n].order == e.order ensures n == m {
      if n < m { TwoInTheStory(s.outbox, n, m); } else if m < n { TwoInTheStory(s.outbox, m, n); }
    }
  }

  lemma {:induction false} StoryIsFromOutbox(outbox: seq<OrderEvent>, o: OrderId, e: OrderEvent)
    requires e in Story(outbox, o)
    ensures exists m :: 0 <= m < |outbox| && outbox[m] == e
  {
    var front := outbox[..|outbox| - 1];
    if e in Story(front, o) {
      StoryIsFromOutbox(front, o, e);
      var m :| 0 <= m < |front| && front[m] == e;
      assert outbox[m] == e;
    }
  }

  /** An order with a verdict has a row announcing it. */
  lemma VerdictHasRow(s: State, o: OrderId)
    requires Inv(s) && o in s.orders && s.orders[o].status != Pending
    ensures exists m :: 0 <= m < |s.outbox| && s.outbox[m].order == o && s.outbox[m].typ != OrderCreated
  {
    assert Story(s.outbox, o) == ExpectedStory(s, o);
    assert AttemptSound(s, o) && RowOk(s, o);
    var e := Story(s.outbox, o)[1];
    StoryIsFromOutbox(s.outbox, o, e);
  }

  /** Every row of the outbox, of whatever type, carries its order's own user, event, seats and amount. */
  lemma RowsCarryTheirOrder(run: seq<State>, i: nat, m: nat)
    requires IsRun(run) && i < |run| && m < |run[i].outbox|
    ensures var e := run[i].outbox[m];
      && e.order in run[i].orders
      && var row := run[i].orders[e.order];
      && e.user == row.user && e.event == row.event && e.seats == row.seats && e.amount == row.amount
      && (e.typ == OrderConfirmed ==> row.status == Confirmed)
      && (e.typ == OrderFailed ==> row.status == Failed && row.failureReason == Some(S.ReasonLabel(e.reason)))
  {
    RunInv(run, i);
    var s, e := run[i], run[i].outbox[m];
    InItsStory(s.outbox, m);
    assert Story(s.outbox, e.order) == ExpectedStory(s, e.order);
    assert AttemptSound(s, e.order) && RowOk(s, e.order);
  }

  /**
   * The outbox tells each order's story exactly: created, then at most one verdict, the stored one.
   * CONFIRMED and FAILED are never left, though the UPDATE does not look at the old status.
   */
  lemma OutboxTellsTheStory(run: seq<State>, i: nat, o: OrderId)
    requires IsRun(run) && i < |run| && o in run[i].orders
    ensures var s := run[i]; var row := s.orders[o];
      && o in s.attempts
      && var created := Announce(o, s.attempts[o].req, OrderCreated, Unspecified);
      match row.status
      case Pending => Story(s.outbox, o) == [created]
      case Confirmed => Story(s.outbox, o) == [created, Announce(o, s.attempts[o].req, OrderConfirmed, Unspecified)]
      case Failed => exists why ::
        row.failureReason == Some(S.ReasonLabel(why)) && Story(s.outbox, o) == [created, Announce(o, s.attempts[o].req, OrderFailed, why)]
    ensures forall j :: i <= j < |run| && run[i].orders[o].status != Pending ==>
      o in run[j].orders && run[j].orders[o] == run[i].orders[o]
  {
    RunInv(run, i);
    var s := run[i];
    assert AttemptSound(s, o) && RowOk(s, o);
    assert Story(s.outbox, o) == ExpectedStory(s, o);
    forall j | i <= j < |run| && s.orders[o].status != Pending ensures o in run[j].orders && run[j].orders[o] == s.orders[o] {
      NothingIsUndone(run, i, j);
    }
  }

  /** The announcement says the order was refused by a service, as opposed to failed by a breakdown. */
  predicate AnnouncesRefusal(e: OrderEvent) {
    e.typ == OrderFailed && (e.reason == SeatsUnavailable || e.reason == PaymentDeclined)
  }

  lemma RefusalInOutbox(s: State, m: nat)
    requires Inv(s) && m < |s.outbox| && AnnouncesRefusal(s.outbox[m])
    ensures !Charged(s, s.outbox[m].order)
  {
    var e := s.outbox[m];
    InItsStory(s.outbox, m);
    assert Story(s.outbox, e.order) == ExpectedStory(s, e.order);
    var a := s.attempts[e.order];
    assert AttemptSound(s, e.order) && RowOk(s, e.order);
    assert a.verdict == S.ToFailed(e.reason);
    forall n | 0 <= n < |s.payments| && s.payments[n].order == e.order ensures !s.payments[n].succeeded {
      assert PaidBy(s, n);
    }
  }

  /** An order announced as refused is not charged, then or ever after. */
  lemma RefusedMeansNotCharged(run: seq<State>, i: nat, m: nat, j: nat)
    requires IsRun(run) && i <= j < |run| && m < |run[i].outbox| && AnnouncesRefusal(run[i].outbox[m])
    ensures !Charged(run[j], run[i].outbox[m].order)
  {
    NothingIsUndone(run, i, j);
    RunInv(run, j);
    assert run[j].outbox[m] == run[i].outbox[m];
    RefusalInOutbox(run[j], m);
  }

  // ---- idempotency ----

  /** Of all requests with one user and one key, at most one creates an order, reserves or charges. */
  lemma OneOrderPerKey(run: seq<State>, i: nat, o: OrderId, p: OrderId)
    requires IsRun(run) && i < |run| && o in run[i].attempts && p in run[i].attempts
    requires run[i].attempts[o].req.user == run[i].attempts[p].req.user
    requires run[i].attempts[o].req.key == run[i].attempts[p].req.key != ""
    ensures o in run[i].orders && p in run[i].orders ==> o == p
    ensures run[i].attempts[o].reserve != S.Unsent && run[i].attempts[p].reserve != S.Unsent ==> o == p
    ensures run[i].attempts[o].charge != S.Unsent && run[i].attempts[p].charge != S.Unsent ==> o == p
  {
    RunInv(run, i);
    var s := run[i];
    assert AttemptSound(s, o) && RowOk(s, o);
    assert AttemptSound(s, p) && RowOk(s, p);
  }

  /** What a later request must have in common with the first one. */
  ghost predicate Repeats(r: Request, q: Request) {
    && r.user == q.user && r.key == q.key && r.key != "" && r.event == q.event && r.amount == q.amount
    && multiset(r.seats) == multiset(q.seats) && I.CanonicallySpelled(r)
  }

  /** The attempt has answered, and its verdict was recorded before it did. */
  ghost predicate AnsweredFor(a: S.Attempt) {
    a.pc.Done? && a.record == S.Answered(Accepted) && a.pc.answer != S.ErrInternal
  }

  lemma StoredAnswer(row: OrderRow, a: S.Attempt, b: S.Attempt, r: Request)
    requires S.Sound(a) && AnsweredFor(a) && a.id == b.id && AttemptPersists(a, b) && RowAgrees(row, b) && row.status != Pending
    requires S.ValidRequest(r) && Repeats(r, a.req)
    ensures I.Replayed(a.id, row, r) == a.pc.answer
  {
    I.RecognisedExactly(row, r);
    if a.verdict.ToFailed? { S.FailureRoundTrip(a.verdict.reason); }
  }

  /**
   * Once the first attempt has answered and its verdict is recorded, every replay of the same request
   * gives that very answer, now and at any later time.
   */
  lemma ReplayRepeatsTheAnswer(run: seq<State>, i: nat, j: nat, o: OrderId, p: OrderId, source: OrderId)
    requires IsRun(run) && i <= j < |run| && o in run[i].attempts && AnsweredFor(run[i].attempts[o])
    requires p in run[j].attempts && Repeats(run[j].attempts[p].req, run[i].attempts[o].req)
    requires source in run[j].orders && I.SameKey(run[j].orders[source], run[j].attempts[p].req)
    ensures I.Replayed(source, run[j].orders[source], run[j].attempts[p].req) == run[i].attempts[o].pc.answer
  {
    RunInv(run, i);
    RunInv(run, j);
    NothingIsUndone(run, i, j);
    assert AttemptSound(run[i], o);
    AnswerStays(run[i], run[j], o);
    ReplayFinds(run[j], run[i].attempts[o], o, p, source);
  }

  lemma AnswerStays(s: State, t: State, o: OrderId)
    requires RowsAgree(s) && RowsAgree(t) && AttemptsPersist(s, t) && TablesPersist(s, t)
    requires o in s.attempts && AnsweredFor(s.attempts[o])
    ensures o in t.orders && o in t.attempts && t.orders[o].status != Pending
    ensures AttemptPersists(s.attempts[o], t.attempts[o]) && RowAgrees(t.orders[o], t.attempts[o])
  {
    assert RowOk(s, o) && RowOk(t, o);
  }

  lemma ReplayFinds(t: State, a: S.Attempt, o: OrderId, p: OrderId, source: OrderId)
    requires AttemptsSound(t) && KeysUnique(t) && o in t.orders && o in t.attempts && t.orders[o].status != Pending
    requires S.Sound(a) && a.id == o && AnsweredFor(a) && AttemptPersists(a, t.attempts[o]) && RowAgrees(t.orders[o], t.attempts[o])
    requires p in t.attempts && Repeats(t.attempts[p].req, a.req)
    requires source in t.orders && I.SameKey(t.orders[source], t.attempts[p].req)
    ensures I.Replayed(source, t.orders[source], t.attempts[p].req) == a.pc.answer
  {
    assert AttemptSound(t, o) && AttemptSound(t, p);
    SameSource(t, o, source, t.attempts[p].req);
    StoredAnswer(t.orders[o], a, t.attempts[o], t.attempts[p].req);
  }

  lemma SameSource(s: State, o: OrderId, source: OrderId, r: Request)
    requires KeysUnique(s) && o in s.orders && source in s.orders && o in s.attempts
    requires RowAgrees(s.orders[o], s.attempts[o])
    requires s.attempts[o].req.user == r.user && s.attempts[o].req.key == r.key && I.SameKey(s.orders[source], r)
    ensures source == o
  {
  }

  // ---- repeating a request word for word ----

  lemma FailureIsNotKeyReuse(reason: Option<string>)
    ensures S.FailureFor(reason) != S.ErrKeyReused
  {
  }

  /** In any run, a request repeated word for word is called a different one if and only if it was not spelled canonically. */
  lemma VerbatimRepeatRefusedExactly(run: seq<State>, i: nat, o: OrderId, r: Request)
    requires IsRun(run) && i < |run| && o in run[i].orders && o in run[i].attempts && run[i].attempts[o].req == r && r.key != ""
    ensures I.SameKey(run[i].orders[o], r)
    ensures I.Replayed(o, run[i].orders[o], r) == S.ErrKeyReused <==> !I.CanonicallySpelled(r)
  {
    RunInv(run, i);
    assert AttemptSound(run[i], o) && RowOk(run[i], o);
    I.RecognisedExactly(run[i].orders[o], r);
    FailureIsNotKeyReuse(run[i].orders[o].failureReason);
  }

  /** The instance: one seat id typed in capitals. The very row this request left does not recognise it. */
  lemma RepeatedVerbatimYetRefused()
    ensures var r := Request(1, 2, [3], 500, "k", Words(Canonical(2), [Variant(3, 0)]));
      S.ValidRequest(r) && I.SameKey(NewRow(r), r) && forall o :: I.Replayed(o, NewRow(r), r) == S.ErrKeyReused
  {
    var r := Request(1, 2, [3], 500, "k", Words(Canonical(2), [Variant(3, 0)]));
    assert !I.CanonicallySpelled(r) by { assert r.words.seats[0].Variant?; }
    I.RecognisedExactly(NewRow(r), r);
  }
}
