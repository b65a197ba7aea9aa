/** The records that the services share: seats, orders, payments and the events about them. */
module Domain {

  datatype Option<+T> = None | Some(value: T)

  type EventId = nat
  type SeatId = nat
  type OrderId = nat
  type UserId = nat

  /** An id as the client typed it. Every text names one id; only one spelling of it is canonical. */
  datatype Text = Canonical(id: nat) | Variant(id: nat, spelling: nat)

  /** How a request spells the event and the seats it names. */
  datatype Words = Words(event: Text, seats: seq<Text>)

  function Texts(ids: seq<nat>): seq<Text> {
    seq(|ids|, i requires 0 <= i < |ids| => Canonical(ids[i]))
  }

  /** The spelling that ids get when they come out of the database. */
  function Plain(event: EventId, ids: seq<SeatId>): Words {
    Words(Canonical(event), Texts(ids))
  }

  ghost predicate Spells(w: Words, event: EventId, ids: seq<SeatId>) {
    w.event.id == event && |w.seats| == |ids| && forall i :: 0 <= i < |ids| ==> w.seats[i].id == ids[i]
  }

  // ---- inventory-svc ----

  datatype SeatStatus = Available | Held | Sold

  /** A row of the `seats` table. */
  datatype Seat = Seat(event: EventId, status: SeatStatus, heldBy: Option<OrderId>)

  /**
   * A row of inventory-svc's outbox: these seats of this event entered this state. Its payload holds the words, as
   * they were typed; `event` and `seats` are the ids they name.
   */
  datatype SeatEvent = SeatEvent(event: EventId, seats: seq<SeatId>, state: SeatStatus, words: Words)

  /** One push to a page that watches an event: the seats concerned, and the status they have all taken. */
  datatype Update = Update(seats: seq<Text>, state: SeatStatus)

  // ---- order-svc ----

  /** Both services allow at most this many seats in one request. */
  const MAX_SEATS_PER_ORDER := 10

  datatype OrderStatus = Pending | Confirmed | Failed

  datatype FailureReason = Unspecified | SeatsUnavailable | PaymentDeclined | ServiceUnavailable

  /** A validated CreateOrder request: the ids it names, and how they were spelled. */
  datatype Request = Request(user: UserId, event: EventId, seats: seq<SeatId>, amount: int, key: string, words: Words)

  /** A row of the `orders` table. */
  datatype OrderRow = OrderRow(user: UserId, event: EventId, seats: seq<SeatId>, amount: int,
                               key: Option<string>, status: OrderStatus, failureReason: Option<string>)

  datatype OrderEventType = OrderCreated | OrderConfirmed | OrderFailed

  /** A row of order-svc's outbox; its position in the outbox is its message id. */
  datatype OrderEvent = OrderEvent(typ: OrderEventType, order: OrderId, user: UserId, event: EventId,
                                   seats: seq<SeatId>, amount: int, reason: FailureReason)

  // ---- payment-svc ----

  /** A row of the `payments` table; `succeeded` is the status column. */
  datatype Payment = Payment(order: OrderId, amount: int, succeeded: bool)

  // ---- calls between them ----

  /** What a caller learns: done, a decision against it, or nothing it can rely on. */
  datatype Reply = Accepted | Refused | Broken

  /** How a server's transaction ends: as reported, undone, or done without the caller learning it. */
  datatype Fault = Clean | RolledBack | Unreported

  /**
   * A Redis key is readable until `grace` milliseconds after its expiry time: 0 if it vanishes on the millisecond it
   * was given, 1 for a store that drops it only once the clock has passed that millisecond.
   */
  predicate KeyAlive(expires: int, now: int, grace: nat) {
    now < expires + grace
  }

  predicate Distinct<T(==)>(xs: seq<T>) {
    forall i, j :: 0 <= i < j < |xs| ==> xs[i] != xs[j]
  }
}
