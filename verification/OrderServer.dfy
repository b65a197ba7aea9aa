/** The transactions of order-svc and payment-svc as the code runs them; the protocol's steps are their specification. */
module OrderServer {
  import opened Domain
  import P = Purchase
  import S = Saga
  import I = Idempotency

  class OrderStore {
    var orders: map<OrderId, OrderRow>
    var outbox: seq<OrderEvent>

    /** The protocol state with these tables. */
    ghost function Tables(): P.State
      reads this
    {
      P.INIT.(orders := orders, outbox := outbox)
    }

    constructor ()
      ensures Tables() == P.INIT
    {
      orders, outbox := map[], [];
    }

    /** The rows the partial unique index would report for this request's (user, key). */
    function Holders(r: Request): set<OrderId>
      reads this
    {
      set p | p in orders && orders[p].user == r.user && r.key != "" && orders[p].key == Some(r.key)
    }

    /** createOrder: INSERT INTO orders, then INSERT INTO outbox, in one transaction. */
    method CreateOrder(o: OrderId, r: Request, fault: Fault) returns (reply: Reply)
      modifies this
      ensures Tables() == if fault == RolledBack then old(Tables()) else P.InsertOrder(old(Tables()), o, r).0
      ensures reply == if fault == Clean then P.InsertOrder(old(Tables()), o, r).1 else Broken
      ensures (exists p :: p in old(orders) && old(orders)[p].user == r.user && r.key != "" && old(orders)[p].key == Some(r.key)) ==>
        orders == old(orders) && outbox == old(outbox) && reply == if fault == Clean then Refused else Broken
      ensures (forall p :: p in old(orders) ==> old(orders)[p].user != r.user || r.key == "" || old(orders)[p].key != Some(r.key)) ==>
        && reply == (if fault == Clean then Accepted else Broken)
        && (fault == RolledBack ==> orders == old(orders) && outbox == old(outbox))
        && (fault != RolledBack ==>
              && orders == old(orders)[o := OrderRow(r.user, r.event, r.seats, r.amount,
                                                     if r.key == "" then None else Some(r.key), Pending, None)]
              && outbox == old(outbox) + [OrderEvent(OrderCreated, o, r.user, r.event, r.seats, r.amount, Unspecified)])
    {
      if Holders(r) != {} {
        var p :| p in Holders(r);
        assert I.SameKey(orders[p], r);
        return if fault == Clean then Refused else Broken;
      }
      assert !I.KeyTaken(orders, r) by {
        forall p | p in orders ensures !I.SameKey(orders[p], r) { assert p !in Holders(r); }
      }
      if fault == RolledBack {
        return Broken;
      }
      orders := orders[o := P.NewRow(r)];
      outbox := outbox + [P.Announce(o, r, OrderCreated, Unspecified)];
      return if fault == Clean then Accepted else Broken;
    }

    /** transition: UPDATE orders with no test of the old status, then INSERT INTO outbox, in one transaction. */
    method Transition(a: S.Attempt, fault: Fault) returns (reply: Reply)
      requires a.verdict != S.Undecided
      modifies this
      ensures Tables() == if fault == RolledBack then old(Tables()) else P.RecordVerdict(old(Tables()), a.id, a).0
      ensures reply == if fault == Clean then P.RecordVerdict(old(Tables()), a.id, a).1 else Broken
      ensures a.id !in old(orders) || fault == RolledBack ==> orders == old(orders) && outbox == old(outbox) && reply == Broken
      ensures a.id in old(orders) && fault != RolledBack ==>
        && reply == (if fault == Clean then Accepted else Broken)
        && var row, r := old(orders)[a.id], a.req;
        match a.verdict
        case ToConfirmed =>
          && orders == old(orders)[a.id := row.(status := Confirmed, failureReason := None)]
          && outbox == old(outbox) + [OrderEvent(OrderConfirmed, a.id, r.user, r.event, r.seats, r.amount, Unspecified)]
        case ToFailed(why) =>
          && (exists word :: orders == old(orders)[a.id := row.(status := Failed, failureReason := Some(word))])
          && (why == SeatsUnavailable ==> orders[a.id].failureReason == Some("seats_unavailable"))
          && (why == PaymentDeclined ==> orders[a.id].failureReason == Some("payment_declined"))
          && (why == ServiceUnavailable ==> orders[a.id].failureReason == Some("service_unavailable"))
          && outbox == old(outbox) + [OrderEvent(OrderFailed, a.id, r.user, r.event, r.seats, r.amount, why)]
        case Undecided => false
    {
      var failed := a.verdict.ToFailed?;
      var reason := if failed then a.verdict.reason else Unspecified;
      var failureReason := if failed then Some(S.ReasonLabel(reason)) else None;
      // The UPDATE of a missing order changes nothing, and its outbox row is refused by the foreign key.
      if a.id !in orders || fault == RolledBack {
        return Broken;
      }
      orders := orders[a.id := orders[a.id].(status := if failed then Failed else Confirmed, failureReason := failureReason)];
      outbox := outbox + [P.Announce(a.id, a.req, if failed then OrderFailed else OrderConfirmed, reason)];
      return if fault == Clean then Accepted else Broken;
    }

    /** replay: look the key's order up, check it is the same request, answer from its row. `found` is that order. */
    method ReplayRequest(r: Request) returns (answer: S.Answer, found: Option<OrderId>)
      ensures found.Some? <==> I.KeyTaken(orders, r)
      ensures found.None? ==> answer == S.ErrInternal
      ensures found.Some? ==>
        found.value in orders && I.SameKey(orders[found.value], r) && answer == I.Replayed(found.value, orders[found.value], r)
      ensures found.Some? ==> (answer == S.ErrKeyReused <==> !I.SameRequest(orders[found.value], r))
      ensures found.Some? && I.SameRequest(orders[found.value], r) ==>
        var row := orders[found.value];
        && (answer == S.ErrInProgress <==> row.status == Pending)
        && (answer == S.OrderPlaced(found.value) <==> row.status == Confirmed)
        && (row.status == Failed ==>
              && (answer == S.ErrSeatsUnavailable <==> row.failureReason == Some("seats_unavailable"))
              && (answer == S.ErrPaymentDeclined <==> row.failureReason == Some("payment_declined"))
              && (answer == S.ErrSeatsUnavailable || answer == S.ErrPaymentDeclined || answer == S.ErrServiceUnavailable))
    {
      if Holders(r) == {} {
        forall q | q in orders ensures !I.SameKey(orders[q], r) { assert q !in Holders(r); }
        return S.ErrInternal, None;
      }
      var p :| p in Holders(r);
      assert I.SameKey(orders[p], r);
      var row := orders[p];
      var same := I.CompareRequest(row, r);
      if !same {
        return S.ErrKeyReused, Some(p);
      }
      match row.status
      case Confirmed => return S.OrderPlaced(p), Some(p);
      case Failed => return S.FailureFor(row.failureReason), Some(p);
      case Pending => return S.ErrInProgress, Some(p);
    }
  }

  class PaymentStore {
    var payments: seq<Payment>

    constructor ()
      ensures payments == []
    {
      payments := [];
    }

    /** Charge. `%` truncates in Go, but a remainder is zero for the same amounts either way. */
    method Charge(order: OrderId, amount: int, fault: Fault) returns (reply: Reply)
      modifies this
      ensures payments == if fault == RolledBack then old(payments) else P.Charge(old(payments), order, amount).0
      ensures reply == if fault == Clean then P.Charge(old(payments), order, amount).1 else Broken
      ensures fault == RolledBack ==> payments == old(payments)
      ensures fault != RolledBack ==> payments == old(payments) + [Payment(order, amount, amount % 7 != 0)]
      ensures reply == Accepted <==> fault == Clean && amount % 7 != 0
      ensures reply == Refused <==> fault == Clean && amount % 7 == 0
    {
      var declined := amount % 7 == 0;
      if fault == RolledBack {
        return Broken;
      }
      payments := payments + [Payment(order, amount, !declined)];
      return if fault == Unreported then Broken else if declined then Refused else Accepted;
    }
  }
}
