/** What the analytics read model says, compared with the seats sold and the money taken. */
module PipelineTheorems {
  import opened Domain
  import opened Sums
  import opened SeatTable
  import opened Pipeline
  import P = Purchase
  import PI = PurchaseInvariant
  import PT = PurchaseTheorems
  import R = Relay
  import C = ConsumerMachine
  import J = Projection

  // ---- the shop's own numbers ----

  ghost function SoldSeats(shop: P.State, event: EventId): set<SeatId> {
    set k | k in shop.inv.seats && shop.inv.seats[k].event == event && shop.inv.seats[k].status == Sold
  }

  ghost function OrdersWith(shop: P.State, event: EventId, status: OrderStatus): set<OrderId> {
    set o | o in shop.orders && shop.orders[o].event == event && shop.orders[o].status == status
  }

  ghost function SeatCount(shop: P.State): nat -> int {
    (o: nat) => if o in shop.orders then |shop.orders[o].seats| else 0
  }

  ghost function Amount(shop: P.State): nat -> int {
    (o: nat) => if o in shop.orders then shop.orders[o].amount else 0
  }

  ghost function One(): nat -> int {
    (o: nat) => 1
  }

  /** The statistics as they would be computed from the orders table itself. */
  ghost function ShopStats(shop: P.State, event: EventId): J.Stats {
    J.Stats(Sum(OrdersWith(shop, event, Confirmed), SeatCount(shop)), Sum(OrdersWith(shop, event, Confirmed), Amount(shop)),
            Sum(OrdersWith(shop, event, Confirmed), One()), Sum(OrdersWith(shop, event, Failed), One()))
  }

  /** Indexes of the SUCCEEDED payments for orders of this event. */
  ghost function PaymentsFor(shop: P.State, event: EventId): set<nat> {
    set i: nat | i < |shop.payments| && shop.payments[i].succeeded
      && shop.payments[i].order in shop.orders && shop.orders[shop.payments[i].order].event == event
  }

  ghost function PaymentAmount(shop: P.State): nat -> int {
    (i: nat) => if i < |shop.payments| then shop.payments[i].amount else 0
  }

  ghost function MoneyTaken(shop: P.State, event: EventId): int {
    Sum(PaymentsFor(shop, event), PaymentAmount(shop))
  }

  // ---- what the protocol's invariant says about verdicts, seats and money ----

  function StatusFor(typ: OrderEventType): OrderStatus {
    match typ
    case OrderCreated => Pending
    case OrderConfirmed => Confirmed
    case OrderFailed => Failed
  }

  ghost predicate IsVerdict(shop: P.State, m: nat) {
    m < |shop.outbox| && shop.outbox[m].typ != OrderCreated
  }

  ghost predicate RowMatches(shop: P.State, m: nat)
    requires m < |shop.outbox|
  {
    var e := shop.outbox[m];
    && e.order in shop.orders && e.event == shop.orders[e.order].event && e.seats == shop.orders[e.order].seats
    && e.amount == shop.orders[e.order].amount && shop.orders[e.order].status == StatusFor(e.typ)
  }

  /** Verdict rows and decided orders are two ways of counting the same thing. */
  ghost predicate VerdictsMatch(shop: P.State) {
    && (forall m: nat :: IsVerdict(shop, m) ==> RowMatches(shop, m))
    && (forall m: nat, n: nat :: IsVerdict(shop, m) && IsVerdict(shop, n) && shop.outbox[m].order == shop.outbox[n].order ==> m == n)
    && (forall o :: o in shop.orders && shop.orders[o].status != Pending ==> exists m: nat :: IsVerdict(shop, m) && shop.outbox[m].order == o)
  }

  lemma VerdictsDoMatch(shop: P.State)
    requires PI.Inv(shop)
    ensures VerdictsMatch(shop)
  {
    forall m: nat | IsVerdict(shop, m) ensures RowMatches(shop, m) { PT.VerdictRow(shop, m); }
    forall m: nat, n: nat | IsVerdict(shop, m) && IsVerdict(shop, n) && shop.outbox[m].order == shop.outbox[n].order ensures m == n {
      PT.VerdictRow(shop, m);
    }
    forall o | o in shop.orders && shop.orders[o].status != Pending ensures exists m: nat :: IsVerdict(shop, m) && shop.outbox[m].order == o {
      PT.VerdictHasRow(shop, o);
      var m: nat :| m < |shop.outbox| && shop.outbox[m].order == o && shop.outbox[m].typ != OrderCreated;
      assert IsVerdict(shop, m);
    }
  }

  ghost predicate Confirms(shop: P.State, o: OrderId) {
    o in shop.orders && shop.orders[o].status == Confirmed
  }

  ghost predicate SeatsOwned(shop: P.State) {
    && (forall o :: Confirms(shop, o) ==> Distinct(shop.orders[o].seats))
    && (forall o, k :: Confirms(shop, o) && k in shop.orders[o].seats ==> k in SoldSeats(shop, shop.orders[o].event))
    && (forall o, p, k :: Confirms(shop, o) && Confirms(shop, p) && k in shop.orders[o].seats && k in shop.orders[p].seats ==> o == p)
  }

  lemma SeatsAreOwned(shop: P.State)
    requires PI.Inv(shop)
    ensures SeatsOwned(shop)
  {
    forall o | Confirms(shop, o)
      ensures Distinct(shop.orders[o].seats) && forall k :: k in shop.orders[o].seats ==> k in SoldSeats(shop, shop.orders[o].event)
    {
      assert PI.AttemptSound(shop, o) && PI.RowOk(shop, o);
      PT.ConfirmedOwnsSeats(shop, o);
    }
    forall o, p, k | Confirms(shop, o) && Confirms(shop, p) && k in shop.orders[o].seats && k in shop.orders[p].seats ensures o == p {
      PT.SharedSeatSameOrder(shop, o, p, k);
    }
  }

  ghost predicate PaysFor(shop: P.State, i: nat)
    requires i < |shop.payments|
  {
    shop.payments[i].order in shop.orders && shop.payments[i].amount == shop.orders[shop.payments[i].order].amount
  }

  ghost predicate MoneyMatches(shop: P.State) {
    && (forall i: nat :: i < |shop.payments| ==> PaysFor(shop, i))
    && (forall i: nat, j: nat :: i < |shop.payments| && j < |shop.payments| && shop.payments[i].order == shop.payments[j].order ==> i == j)
    && (forall o :: o in shop.orders ==> shop.orders[o].amount >= 0)
    && (forall o :: Confirms(shop, o) ==> PT.Charged(shop, o))
  }

  lemma MoneyDoesMatch(shop: P.State)
    requires PI.Inv(shop)
    ensures MoneyMatches(shop)
  {
    forall i: nat | i < |shop.payments| ensures PaysFor(shop, i) {
      assert PI.PaidBy(shop, i);
      assert PI.AttemptSound(shop, shop.payments[i].order) && PI.RowOk(shop, shop.payments[i].order);
    }
    forall o | o in shop.orders ensures shop.orders[o].amount >= 0 && (Confirms(shop, o) ==> PT.Charged(shop, o)) {
      assert PI.AttemptSound(shop, o) && PI.RowOk(shop, o);
    }
  }

  // ---- from messages to orders ----

  /** Outbox rows among `ids` that announce this verdict for this event. */
  ghost function Rows(shop: P.State, ids: set<nat>, event: EventId, typ: OrderEventType): set<nat> {
    set m | m in ids && m < |shop.outbox| && shop.outbox[m].event == event && shop.outbox[m].typ == typ
  }

  ghost function OrderOf(shop: P.State): nat -> nat {
    (m: nat) => if m < |shop.outbox| then shop.outbox[m].order else 0
  }

  ghost function Orders(shop: P.State, rows: set<nat>): set<OrderId> {
    set m | m in rows && m < |shop.outbox| :: shop.outbox[m].order
  }

  /** Rows with one verdict name their orders one to one. */
  lemma RowsNameOrders(shop: P.State, rows: set<nat>, f: nat -> int, g: nat -> int)
    requires VerdictsMatch(shop) && forall m :: m in rows ==> IsVerdict(shop, m) && f(m) == g(shop.outbox[m].order)
    ensures Renames(rows, Orders(shop, rows), f, OrderOf(shop), g)
  {
    var orders, name := Orders(shop, rows), OrderOf(shop);
    forall x, y | x in rows && y in rows && name(x) == name(y) ensures x == y {
      assert IsVerdict(shop, x) && IsVerdict(shop, y);
    }
    forall o | o in orders ensures exists m :: m in rows && name(m) == o {
      var m :| m in rows && m < |shop.outbox| && shop.outbox[m].order == o;
      assert name(m) == o;
    }
  }

  /** A statistic that only rows of one verdict contribute to is a sum over the orders those rows announce. */
  lemma StatisticOverOrders(shop: P.State, ids: set<nat>, event: EventId, typ: OrderEventType, pick: J.Stats -> int, g: nat -> int)
    requires VerdictsMatch(shop) && typ != OrderCreated && ids <= BookOf(shop.outbox).Keys
    requires forall m :: m in ids && shop.outbox[m].typ != typ ==> pick(VerdictStats(shop.outbox[m])) == 0
    requires forall m :: m in ids && shop.outbox[m].typ == typ ==> pick(VerdictStats(shop.outbox[m])) == g(shop.outbox[m].order)
    ensures Sum(ids, J.Part(BookOf(shop.outbox), event, pick)) == Sum(Orders(shop, Rows(shop, ids, event, typ)), g)
  {
    var f := J.Part(BookOf(shop.outbox), event, pick);
    var rows := Rows(shop, ids, event, typ);
    forall m | m in ids && m !in rows ensures f(m) == 0 {}
    SumSupport(rows, ids, f);
    forall m | m in rows ensures IsVerdict(shop, m) && f(m) == g(shop.outbox[m].order) {}
    RowsNameOrders(shop, rows, f, g);
    SumRenamed(rows, Orders(shop, rows), f, OrderOf(shop), g);
  }

  lemma OrdersHaveVerdict(shop: P.State, ids: set<nat>, event: EventId, typ: OrderEventType)
    requires VerdictsMatch(shop) && typ != OrderCreated
    ensures Orders(shop, Rows(shop, ids, event, typ)) <= OrdersWith(shop, event, StatusFor(typ))
  {
    var rows := Rows(shop, ids, event, typ);
    forall o | o in Orders(shop, rows) ensures o in OrdersWith(shop, event, StatusFor(typ)) {
      var m :| m in rows && m < |shop.outbox| && shop.outbox[m].order == o;
      assert IsVerdict(shop, m) && RowMatches(shop, m);
    }
  }

  lemma CountedRows(shop: P.State, table: J.Table, m: nat)
    requires VerdictsMatch(shop) && J.CountsOnce(table, BookOf(shop.outbox)) && m in table.processed
    ensures IsVerdict(shop, m) && RowMatches(shop, m)
  {
    assert m in BookOf(shop.outbox);
    assert IsVerdict(shop, m);
  }

  /** The tickets counted so far, as a sum over the confirmed orders they stand for. */
  lemma TicketsOverOrders(shop: P.State, table: J.Table, event: EventId)
    requires VerdictsMatch(shop) && J.CountsOnce(table, BookOf(shop.outbox))
    ensures J.StatsOf(table, event).tickets == Sum(Orders(shop, Rows(shop, table.processed, event, OrderConfirmed)), SeatCount(shop))
  {
    forall m | m in table.processed ensures IsVerdict(shop, m) && RowMatches(shop, m) { CountedRows(shop, table, m); }
    assert J.EventCounted(table, BookOf(shop.outbox), event);
    StatisticOverOrders(shop, table.processed, event, OrderConfirmed, (d: J.Stats) => d.tickets, SeatCount(shop));
  }

  lemma RevenueOverOrders(shop: P.State, table: J.Table, event: EventId)
    requires VerdictsMatch(shop) && J.CountsOnce(table, BookOf(shop.outbox))
    ensures J.StatsOf(table, event).revenue == Sum(Orders(shop, Rows(shop, table.processed, event, OrderConfirmed)), Amount(shop))
  {
    forall m | m in table.processed ensures IsVerdict(shop, m) && RowMatches(shop, m) { CountedRows(shop, table, m); }
    assert J.EventCounted(table, BookOf(shop.outbox), event);
    StatisticOverOrders(shop, table.processed, event, OrderConfirmed, (d: J.Stats) => d.revenue, Amount(shop));
  }

  lemma VerdictsOverOrders(shop: P.State, table: J.Table, event: EventId)
    requires VerdictsMatch(shop) && J.CountsOnce(table, BookOf(shop.outbox))
    ensures J.StatsOf(table, event).confirmed == Sum(Orders(shop, Rows(shop, table.processed, event, OrderConfirmed)), One())
    ensures J.StatsOf(table, event).failed == Sum(Orders(shop, Rows(shop, table.processed, event, OrderFailed)), One())
  {
    forall m | m in table.processed ensures IsVerdict(shop, m) && RowMatches(shop, m) { CountedRows(shop, table, m); }
    assert J.EventCounted(table, BookOf(shop.outbox), event);
    StatisticOverOrders(shop, table.processed, event, OrderConfirmed, (d: J.Stats) => d.confirmed, One());
    StatisticOverOrders(shop, table.processed, event, OrderFailed, (d: J.Stats) => d.failed, One());
  }

  // ---- bounds that always hold ----

  ghost function SeatsOf(shop: P.State, orders: set<OrderId>): set<SeatId> {
    set k | k in shop.inv.seats && exists o :: o in orders && o in shop.orders && k in shop.orders[o].seats
  }

  lemma SeatsSplit(shop: P.State, orders: set<OrderId>, o: OrderId)
    requires SeatsOwned(shop) && o in orders && forall p :: p in orders ==> Confirms(shop, p)
    ensures SeatsOf(shop, orders) == SeatsOf(shop, orders - {o}) + Ids(shop.orders[o].seats)
    ensures SeatsOf(shop, orders - {o}) !! Ids(shop.orders[o].seats)
  {
    var rest, mine := orders - {o}, Ids(shop.orders[o].seats);
    forall k | k in SeatsOf(shop, orders) ensures k in SeatsOf(shop, rest) + mine {
      var p :| p in orders && p in shop.orders && k in shop.orders[p].seats;
      if p != o { assert p in rest; }
    }
    forall k | k in mine ensures k in SeatsOf(shop, orders) && k !in SeatsOf(shop, rest) {
      assert k in SoldSeats(shop, shop.orders[o].event);
      forall p | p in rest ensures k !in shop.orders[p].seats {}
    }
    forall k | k in SeatsOf(shop, rest) ensures k in SeatsOf(shop, orders) {
      var p :| p in rest && p in shop.orders && k in shop.orders[p].seats;
      assert p in orders;
    }
  }

  /** Confirmed orders do not share seats, so their seat counts add up to the seats they own. */
  lemma {:induction false} SeatCountsAddUp(shop: P.State, orders: set<OrderId>)
    requires SeatsOwned(shop) && forall o :: o in orders ==> Confirms(shop, o)
    ensures Sum(orders, SeatCount(shop)) == |SeatsOf(shop, orders)|
    decreases |orders|
  {
    if orders == {} {
      assert SeatsOf(shop, orders) == {};
    } else {
      var o :| o in orders;
      SumPick(orders, o, SeatCount(shop));
      SeatCountsAddUp(shop, orders - {o});
      SeatsSplit(shop, orders, o);
      IdsCount(shop.orders[o].seats);
    }
  }

  lemma OwnedAreSold(shop: P.State, orders: set<OrderId>, event: EventId)
    requires SeatsOwned(shop) && forall o :: o in orders ==> Confirms(shop, o) && shop.orders[o].event == event
    ensures Sum(orders, SeatCount(shop)) <= |SoldSeats(shop, event)|
  {
    SeatCountsAddUp(shop, orders);
    forall k | k in SeatsOf(shop, orders) ensures k in SoldSeats(shop, event) {
      var o :| o in orders && o in shop.orders && k in shop.orders[o].seats;
      assert Confirms(shop, o);
    }
    NoLarger(SeatsOf(shop, orders), SoldSeats(shop, event));
  }

  lemma TicketsAreSold(shop: P.State, table: J.Table, event: EventId)
    requires VerdictsMatch(shop) && SeatsOwned(shop) && J.CountsOnce(table, BookOf(shop.outbox))
    ensures J.StatsOf(table, event).tickets <= |SoldSeats(shop, event)|
  {
    var orders := Orders(shop, Rows(shop, table.processed, event, OrderConfirmed));
    TicketsOverOrders(shop, table, event);
    OrdersHaveVerdict(shop, table.processed, event, OrderConfirmed);
    forall o | o in orders ensures Confirms(shop, o) && shop.orders[o].event == event {
      assert o in OrdersWith(shop, event, Confirmed);
    }
    OwnedAreSold(shop, orders, event);
  }

  ghost function PaidOrders(shop: P.State, event: EventId): set<OrderId> {
    set i | i in PaymentsFor(shop, event) && i < |shop.payments| :: shop.payments[i].order
  }

  /** Payments are one per order and for the order's amount, so the money taken is a sum over orders. */
  lemma MoneyOverOrders(shop: P.State, event: EventId)
    requires MoneyMatches(shop)
    ensures MoneyTaken(shop, event) == Sum(PaidOrders(shop, event), Amount(shop))
  {
    var s, t := PaymentsFor(shop, event), PaidOrders(shop, event);
    var name: nat -> nat := (i: nat) => if i < |shop.payments| then shop.payments[i].order else 0;
    forall i | i in s ensures name(i) in t && Amount(shop)(name(i)) == PaymentAmount(shop)(i) {
      assert PaysFor(shop, i);
    }
    forall o | o in t ensures exists i :: i in s && name(i) == o {
      var i :| i in s && i < |shop.payments| && shop.payments[i].order == o;
      assert name(i) == o;
    }
    SumRenamed(s, t, PaymentAmount(shop), name, Amount(shop));
  }

  lemma ConfirmedIsPaid(shop: P.State, event: EventId, o: OrderId)
    requires MoneyMatches(shop) && o in OrdersWith(shop, event, Confirmed)
    ensures o in PaidOrders(shop, event)
  {
    assert Confirms(shop, o);
    var i: nat :| i < |shop.payments| && shop.payments[i].order == o && shop.payments[i].succeeded;
    assert i in PaymentsFor(shop, event);
  }

  lemma RevenueIsPaid(shop: P.State, table: J.Table, event: EventId)
    requires VerdictsMatch(shop) && MoneyMatches(shop) && J.CountsOnce(table, BookOf(shop.outbox))
    ensures J.StatsOf(table, event).revenue <= MoneyTaken(shop, event)
  {
    var orders := Orders(shop, Rows(shop, table.processed, event, OrderConfirmed));
    RevenueOverOrders(shop, table, event);
    OrdersHaveVerdict(shop, table.processed, event, OrderConfirmed);
    MoneyOverOrders(shop, event);
    var paid := PaidOrders(shop, event);
    forall o | o in orders ensures o in paid { ConfirmedIsPaid(shop, event, o); }
    SumSubset(orders, paid, Amount(shop));
  }

  /** The read model never claims a ticket that is not sold or a cent that was not taken, at any moment. */
  lemma ReadModelNeverOverstates(cfg: C.Config, run: seq<System>, i: nat, event: EventId)
    requires IsRun(cfg, run) && i < |run|
    ensures J.StatsOf(run[i].table, event).tickets <= |SoldSeats(run[i].shop, event)|
    ensures J.StatsOf(run[i].table, event).revenue <= MoneyTaken(run[i].shop, event)
  {
    RunInv(cfg, run, i);
    VerdictsDoMatch(run[i].shop);
    SeatsAreOwned(run[i].shop);
    MoneyDoesMatch(run[i].shop);
    TicketsAreSold(run[i].shop, run[i].table, event);
    RevenueIsPaid(run[i].shop, run[i].table, event);
  }

  // ---- equality once everything has been delivered ----

  /** Every row announcing this verdict for this event has been counted. */
  ghost predicate AllCounted(shop: P.State, table: J.Table, event: EventId, typ: OrderEventType) {
    forall m: nat | IsVerdict(shop, m) && shop.outbox[m].event == event && shop.outbox[m].typ == typ :: m in table.processed
  }

  /** Then the orders counted are all the orders with that verdict. And only then: an order's row is its only one. */
  lemma AllOrders(shop: P.State, table: J.Table, event: EventId, typ: OrderEventType)
    requires VerdictsMatch(shop) && typ != OrderCreated
    ensures Orders(shop, Rows(shop, table.processed, event, typ)) == OrdersWith(shop, event, StatusFor(typ))
      <==> AllCounted(shop, table, event, typ)
  {
    var ids := table.processed;
    var rows := Rows(shop, ids, event, typ);
    OrdersHaveVerdict(shop, ids, event, typ);
    if AllCounted(shop, table, event, typ) {
      forall o | o in OrdersWith(shop, event, StatusFor(typ)) ensures o in Orders(shop, rows) {
        var m: nat :| IsVerdict(shop, m) && shop.outbox[m].order == o;
        assert RowMatches(shop, m);
        assert m in rows;
      }
    }
    if Orders(shop, rows) == OrdersWith(shop, event, StatusFor(typ)) {
      forall m: nat | IsVerdict(shop, m) && shop.outbox[m].event == event && shop.outbox[m].typ == typ ensures m in ids {
        assert RowMatches(shop, m) && shop.outbox[m].order in Orders(shop, rows);
        var n :| n in rows && n < |shop.outbox| && shop.outbox[n].order == shop.outbox[m].order;
        assert IsVerdict(shop, n);
      }
    }
  }

  /** A sum of positive numbers over part of a set equals the sum over the whole only if the part is the whole. */
  lemma SumDecides(part: set<nat>, whole: set<nat>, f: nat -> int)
    requires part <= whole && forall x :: x in whole ==> f(x) > 0
    ensures Sum(part, f) == Sum(whole, f) <==> part == whole
  {
    if x: nat :| x in whole && x !in part {
      SumPick(whole, x, f);
      SumSubset(part, whole - {x}, f);
    }
  }

  /** Orders are for at least one seat and a positive amount. */
  ghost predicate OrdersPositive(shop: P.State) {
    forall o :: o in shop.orders ==> SeatCount(shop)(o) > 0 && Amount(shop)(o) > 0
  }

  lemma OrdersArePositive(shop: P.State)
    requires PI.Inv(shop)
    ensures OrdersPositive(shop)
  {
    forall o | o in shop.orders ensures SeatCount(shop)(o) > 0 && Amount(shop)(o) > 0 {
      assert PI.AttemptSound(shop, o) && PI.RowOk(shop, o);
    }
  }

  lemma ConfirmedExactly(shop: P.State, table: J.Table, event: EventId)
    requires VerdictsMatch(shop) && OrdersPositive(shop) && J.CountsOnce(table, BookOf(shop.outbox))
    ensures var read, own := J.StatsOf(table, event), ShopStats(shop, event);
      && (read.tickets == own.tickets <==> AllCounted(shop, table, event, OrderConfirmed))
      && (read.revenue == own.revenue <==> AllCounted(shop, table, event, OrderConfirmed))
      && (read.confirmed == own.confirmed <==> AllCounted(shop, table, event, OrderConfirmed))
  {
    var counted, all := Orders(shop, Rows(shop, table.processed, event, OrderConfirmed)), OrdersWith(shop, event, Confirmed);
    AllOrders(shop, table, event, OrderConfirmed);
    OrdersHaveVerdict(shop, table.processed, event, OrderConfirmed);
    TicketsOverOrders(shop, table, event);
    SumDecides(counted, all, SeatCount(shop));
    RevenueOverOrders(shop, table, event);
    SumDecides(counted, all, Amount(shop));
    VerdictsOverOrders(shop, table, event);
    SumDecides(counted, all, One());
  }

  lemma FailedExactly(shop: P.State, table: J.Table, event: EventId)
    requires VerdictsMatch(shop) && J.CountsOnce(table, BookOf(shop.outbox))
    ensures J.StatsOf(table, event).failed == ShopStats(shop, event).failed <==> AllCounted(shop, table, event, OrderFailed)
  {
    AllOrders(shop, table, event, OrderFailed);
    OrdersHaveVerdict(shop, table.processed, event, OrderFailed);
    VerdictsOverOrders(shop, table, event);
    SumDecides(Orders(shop, Rows(shop, table.processed, event, OrderFailed)), OrdersWith(shop, event, Failed), One());
  }

  /**
   * In every state of every run: tickets, revenue and the number of confirmed orders are what the orders table says
   * if and only if every CONFIRMED row of the event has been counted; the number of failed ones, every FAILED row.
   */
  lemma ReadModelExactlyWhenCounted(cfg: C.Config, run: seq<System>, i: nat, event: EventId)
    requires IsRun(cfg, run) && i < |run|
    ensures var s := run[i]; var read, own := J.StatsOf(s.table, event), ShopStats(s.shop, event);
      && (read.tickets == own.tickets <==> AllCounted(s.shop, s.table, event, OrderConfirmed))
      && (read.revenue == own.revenue <==> AllCounted(s.shop, s.table, event, OrderConfirmed))
      && (read.confirmed == own.confirmed <==> AllCounted(s.shop, s.table, event, OrderConfirmed))
      && (read.failed == own.failed <==> AllCounted(s.shop, s.table, event, OrderFailed))
  {
    RunInv(cfg, run, i);
    VerdictsDoMatch(run[i].shop);
    OrdersArePositive(run[i].shop);
    ConfirmedExactly(run[i].shop, run[i].table, event);
    FailedExactly(run[i].shop, run[i].table, event);
  }

  /** The rows with this verdict for this event are relayed, the topic is committed to its end, and none of them was parked. */
  ghost predicate CaughtUp(s: System, event: EventId, typ: OrderEventType) {
    && (forall m: nat | m < |s.relay.rows| && s.relay.rows[m].event == event && s.relay.rows[m].typ == typ :: m in s.relay.published)
    && s.consumer.committed == |s.relay.topic|
    && (forall x | x in s.consumer.parked && x < |s.relay.topic| ::
          s.relay.topic[x].value.event != event || s.relay.topic[x].value.typ != typ)
  }

  lemma CaughtUpIsCounted(s: System, cfg: C.Config, event: EventId, typ: OrderEventType)
    requires R.Inv(s.relay) && s.relay.rows == s.shop.outbox && C.Inv(cfg, s.consumer, |s.relay.topic|)
    requires HandledAreCounted(s) && CaughtUp(s, event, typ) && typ != OrderCreated
    ensures AllCounted(s.shop, s.table, event, typ)
  {
    forall m: nat | IsVerdict(s.shop, m) && s.shop.outbox[m].event == event && s.shop.outbox[m].typ == typ
      ensures m in s.table.processed
    {
      assert R.CopyAccounted(s.relay, m);
      R.HasCopy(s.relay.topic, m);
      var x :| 0 <= x < |s.relay.topic| && s.relay.topic[x].id == m;
      assert C.Covered(s.consumer, x);
    }
  }

  /** Once the CONFIRMED rows have come through, tickets, revenue and confirmed are exact; once the FAILED ones have, failed is. */
  lemma ReadModelCatchesUp(cfg: C.Config, run: seq<System>, i: nat, event: EventId)
    requires IsRun(cfg, run) && i < |run|
    ensures var s := run[i]; var read, own := J.StatsOf(s.table, event), ShopStats(s.shop, event);
      && (CaughtUp(s, event, OrderConfirmed) ==>
            read.tickets == own.tickets && read.revenue == own.revenue && read.confirmed == own.confirmed)
      && (CaughtUp(s, event, OrderFailed) ==> read.failed == own.failed)
      && (CaughtUp(s, event, OrderConfirmed) && CaughtUp(s, event, OrderFailed) ==> read == own)
  {
    RunInv(cfg, run, i);
    ReadModelExactlyWhenCounted(cfg, run, i, event);
    if CaughtUp(run[i], event, OrderConfirmed) { CaughtUpIsCounted(run[i], cfg, event, OrderConfirmed); }
    if CaughtUp(run[i], event, OrderFailed) { CaughtUpIsCounted(run[i], cfg, event, OrderFailed); }
  }
}
