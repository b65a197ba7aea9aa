/**
 * The purchase protocol: any number of CreateOrder attempts, the seat table, the payments table,
 * the orders table and the sweeper, interleaved step by step.
 *
 * A call is sent, carried out and answered in separate steps. The server may carry it out after the
 * caller has given up or died, its transaction may be undone, or it may commit and the reply be lost.
 */
module Purchase {
  import opened Domain
  import opened SeatTable
  import S = Saga
  import I = Idempotency

  /** History: a seat row went from HELD to SOLD on behalf of an order (the row itself forgets whom). */
  datatype Sale = Sale(seat: SeatId, order: OrderId)

  datatype State = State(inv: Inventory, orders: map<OrderId, OrderRow>, outbox: seq<OrderEvent>,
                         payments: seq<Payment>, attempts: map<OrderId, S.Attempt>, sales: seq<Sale>)

  const INIT := State(Inventory(map[], []), map[], [], [], map[], [])

  datatype Step =
    | CreateEvent(event: EventId, seats: set<SeatId>)
    | Arrive(order: OrderId, req: Request)
    | Execute(order: OrderId, call: S.Call, fault: Fault)
    | Deliver(order: OrderId, heard: Reply)
    | Replay(order: OrderId, source: Option<OrderId>)
    | Crash(order: OrderId)
    | SweepHolds(expired: set<SeatId>, groups: seq<SeatEvent>)

  // ---- what each service does ----

  function Announce(o: OrderId, r: Request, typ: OrderEventType, reason: FailureReason): OrderEvent {
    OrderEvent(typ, o, r.user, r.event, r.seats, r.amount, reason)
  }

  function NewRow(r: Request): OrderRow {
    OrderRow(r.user, r.event, r.seats, r.amount, if r.key == "" then None else Some(r.key), Pending, None)
  }

  /** createOrder: the row and its ORDER_CREATED event, unless the key is taken. */
  ghost function InsertOrder(s: State, o: OrderId, r: Request): (State, Reply) {
    if I.KeyTaken(s.orders, r) then (s, Refused)
    else (s.(orders := s.orders[o := NewRow(r)],
             outbox := s.outbox + [Announce(o, r, OrderCreated, Unspecified)]), Accepted)
  }

  /** transition: the status is overwritten whatever it was, and the matching event is written with it. */
  ghost function RecordVerdict(s: State, o: OrderId, a: S.Attempt): (State, Reply) {
    if o !in s.orders then (s, Broken)
    else match a.verdict
      case Undecided => (s, Broken)
      case ToConfirmed =>
        (s.(orders := s.orders[o := s.orders[o].(status := Confirmed, failureReason := None)],
            outbox := s.outbox + [Announce(o, a.req, OrderConfirmed, Unspecified)]), Accepted)
      case ToFailed(why) =>
        (s.(orders := s.orders[o := s.orders[o].(status := Failed, failureReason := Some(S.ReasonLabel(why)))],
            outbox := s.outbox + [Announce(o, a.req, OrderFailed, why)]), Accepted)
  }

  /** Charge: an amount divisible by 7 is declined; both outcomes leave a row. */
  function Charge(payments: seq<Payment>, o: OrderId, amount: int): (seq<Payment>, Reply) {
    if amount % 7 == 0 then (payments + [Payment(o, amount, false)], Refused)
    else (payments + [Payment(o, amount, true)], Accepted)
  }

  function SalesOf(o: OrderId, ids: seq<SeatId>): seq<Sale> {
    seq(|ids|, i requires 0 <= i < |ids| => Sale(ids[i], o))
  }

  /** The server's side of a call, when nothing goes wrong. */
  ghost function Effect(s: State, o: OrderId, a: S.Attempt, c: S.Call): (State, Reply) {
    match c
    case Insert => InsertOrder(s, o, a.req)
    case Reserve =>
      var (inv, r) := Reserve(s.inv, a.req.event, a.req.seats, o, a.req.words);
      (s.(inv := inv), r)
    case Charge =>
      var (payments, r) := Charge(s.payments, o, a.req.amount);
      (s.(payments := payments), r)
    case Confirm =>
      var (inv, r) := Move(s.inv, a.req.event, a.req.seats, o, Sold, a.req.words);
      (s.(inv := inv, sales := if r == Accepted then s.sales + SalesOf(o, a.req.seats) else s.sales), r)
    case Release =>
      var (inv, r) := Move(s.inv, a.req.event, a.req.seats, o, Available, a.req.words);
      (s.(inv := inv), r)
    case Record => RecordVerdict(s, o, a)
  }

  ghost function Executed(s: State, o: OrderId, c: S.Call, fault: Fault): State
    requires o in s.attempts
  {
    var a := s.attempts[o];
    var (done, r) := Effect(s, o, a, c);
    var base := if fault == RolledBack then s else done;
    base.(attempts := s.attempts[o := S.Land(a, c, if fault == Clean then r else Broken)])
  }

  // ---- the steps ----

  ghost predicate Enabled(s: State, st: Step) {
    match st
    case CreateEvent(_, seats) => seats !! s.inv.seats.Keys
    case Arrive(o, req) => o !in s.attempts && S.ValidRequest(req)
    case Execute(o, c, _) => o in s.attempts && S.FlightOf(s.attempts[o], c) == S.Sent
    case Deliver(o, heard) => o in s.attempts && S.MayHear(s.attempts[o], heard)
    case Replay(o, source) =>
      && o in s.attempts && s.attempts[o].pc == S.Replaying
      && (source.Some? ==> source.value in s.orders && I.SameKey(s.orders[source.value], s.attempts[o].req))
    case Crash(o) => o in s.attempts && !s.attempts[o].pc.Done?
    case SweepHolds(expired, groups) => Grouping(s.inv.seats, Freed(s.inv.seats, expired), groups)
  }

  ghost function WithPc(s: State, o: OrderId, pc: S.Pc): State
    requires o in s.attempts
  {
    s.(attempts := s.attempts[o := s.attempts[o].(pc := pc)])
  }

  ghost function Do(s: State, st: Step): State
    requires Enabled(s, st)
  {
    match st
    case CreateEvent(event, seats) => s.(inv := s.inv.(seats := s.inv.seats + NewSeats(event, seats)))
    case Arrive(o, req) => s.(attempts := s.attempts[o := S.Begin(o, req)])
    case Execute(o, c, fault) => Executed(s, o, c, fault)
    case Deliver(o, heard) => s.(attempts := s.attempts[o := S.Hear(s.attempts[o], heard)])
    case Replay(o, source) =>
      WithPc(s, o, S.Done(if source.None? then S.ErrInternal
                          else I.Replayed(source.value, s.orders[source.value], s.attempts[o].req)))
    case Crash(o) => WithPc(s, o, S.Crashed)
    case SweepHolds(expired, groups) => s.(inv := Sweep(s.inv, expired, groups))
  }

  ghost predicate Next(s: State, t: State) {
    exists st :: Enabled(s, st) && t == Do(s, st)
  }

  ghost predicate Linked(run: seq<State>, i: int)
    requires 0 < i < |run|
  {
    Next(run[i - 1], run[i])
  }

  /** A run: the states the system passes through, from empty tables on. */
  ghost predicate IsRun(run: seq<State>) {
    && run != [] && run[0] == INIT
    && forall i :: 0 < i < |run| ==> Linked(run, i)
  }
}
