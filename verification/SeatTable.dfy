/** The `seats` table and its outbox: what reserve, confirm, release and sweep do to them. */
module SeatTable {
  import opened Domain

  type Table = map<SeatId, Seat>

  /** Every requested seat exists, belongs to the event and is free. */
  ghost predicate Reservable(t: Table, event: EventId, ids: seq<SeatId>) {
    forall i :: 0 <= i < |ids| ==> ids[i] in t && t[ids[i]].event == event && t[ids[i]].status == Available
  }

  /** Every requested seat is held by this order, under this event. */
  ghost predicate HeldBy(t: Table, event: EventId, ids: seq<SeatId>, order: OrderId) {
    forall i :: 0 <= i < |ids| ==>
      ids[i] in t && t[ids[i]].event == event && t[ids[i]].status == Held && t[ids[i]].heldBy == Some(order)
  }

  /** The table with the status and holder of some seats overwritten. */
  function Marked(t: Table, ids: set<SeatId>, status: SeatStatus, holder: Option<OrderId>): Table {
    map s | s in t :: if s in ids then t[s].(status := status, heldBy := holder) else t[s]
  }

  function Ids(ids: seq<SeatId>): set<SeatId> {
    set s | s in ids
  }

  lemma {:induction false} IdsCount(ids: seq<SeatId>)
    requires Distinct(ids)
    ensures |Ids(ids)| == |ids|
  {
    if ids != [] {
      var front, last := ids[..|ids| - 1], ids[|ids| - 1];
      IdsCount(front);
      assert Ids(ids) == Ids(front) + {last};
    }
  }

  datatype Inventory = Inventory(seats: Table, log: seq<SeatEvent>)

  /** ReserveSeats as one indivisible test-and-set. */
  ghost function Reserve(inv: Inventory, event: EventId, ids: seq<SeatId>, order: OrderId, words: Words): (Inventory, Reply) {
    if Reservable(inv.seats, event, ids) then
      (Inventory(Marked(inv.seats, Ids(ids), Held, Some(order)), inv.log + [SeatEvent(event, ids, Held, words)]), Accepted)
    else
      (inv, Refused)
  }

  /** moveHeldSeats: all of the seats leave the order's hold together, or none does. */
  ghost function Move(inv: Inventory, event: EventId, ids: seq<SeatId>, order: OrderId, to: SeatStatus, words: Words)
    : (Inventory, Reply)
  {
    if HeldBy(inv.seats, event, ids, order) then
      (Inventory(Marked(inv.seats, Ids(ids), to, None), inv.log + [SeatEvent(event, ids, to, words)]), Accepted)
    else
      (inv, Refused)
  }

  /** A reservation takes all the seats, free seats of the event only, for this order; or it is refused and takes none. */
  lemma ReserveMeans(inv: Inventory, event: EventId, ids: seq<SeatId>, order: OrderId, words: Words)
    ensures var (after, r) := Reserve(inv, event, ids, order, words);
      && (r == Accepted <==> forall s :: s in ids ==> s in inv.seats && inv.seats[s].event == event && inv.seats[s].status == Available)
      && (r != Accepted ==> r == Refused && after == inv)
      && (r == Accepted ==>
            && after.seats.Keys == inv.seats.Keys && after.log == inv.log + [SeatEvent(event, ids, Held, words)]
            && forall s :: s in inv.seats ==> after.seats[s] == if s in ids then Seat(event, Held, Some(order)) else inv.seats[s])
  {
  }

  /** Confirm and release end the order's hold on all the seats; or they are refused and end none. */
  lemma MoveMeans(inv: Inventory, event: EventId, ids: seq<SeatId>, order: OrderId, to: SeatStatus, words: Words)
    ensures var (after, r) := Move(inv, event, ids, order, to, words);
      && (r == Accepted <==> forall s :: s in ids ==> s in inv.seats && inv.seats[s] == Seat(event, Held, Some(order)))
      && (r != Accepted ==> r == Refused && after == inv)
      && (r == Accepted ==>
            && after.seats.Keys == inv.seats.Keys && after.log == inv.log + [SeatEvent(event, ids, to, words)]
            && forall s :: s in inv.seats ==> after.seats[s] == if s in ids then Seat(event, to, None) else inv.seats[s])
  {
    if forall s :: s in ids ==> s in inv.seats && inv.seats[s] == Seat(event, Held, Some(order)) {
      forall i | 0 <= i < |ids| ensures ids[i] in inv.seats && inv.seats[ids[i]] == Seat(event, Held, Some(order)) { assert ids[i] in ids; }
    }
  }

  function Freed(t: Table, expired: set<SeatId>): set<SeatId> {
    set s | s in expired && s in t && t[s].status == Held
  }

  ghost predicate PlainlySpelled(e: SeatEvent) {
    e.words == Plain(e.event, e.seats)
  }

  /** One event per concert, naming each freed seat exactly once, under the seat's own event, in database spelling. */
  ghost predicate Grouping(t: Table, freed: set<SeatId>, groups: seq<SeatEvent>) {
    && (forall i :: 0 <= i < |groups| ==>
          groups[i].state == Available && groups[i].seats != [] && Distinct(groups[i].seats) && PlainlySpelled(groups[i]))
    && (forall i, j :: 0 <= i < j < |groups| ==> groups[i].event != groups[j].event)
    && (forall i, s :: 0 <= i < |groups| && s in groups[i].seats ==> s in freed && s in t && t[s].event == groups[i].event)
    && (forall s :: s in freed ==> exists i :: 0 <= i < |groups| && s in groups[i].seats)
  }

  /** The sweep's transaction: every listed seat that is still held becomes free. */
  ghost function Sweep(inv: Inventory, expired: set<SeatId>, groups: seq<SeatEvent>): Inventory {
    Inventory(Marked(inv.seats, Freed(inv.seats, expired), Available, None), inv.log + groups)
  }

  // ---- what the seat log says ----

  /** The state a seat is in after the log, starting free: the last event that names it decides. */
  ghost function StatusAfter(log: seq<SeatEvent>, seat: SeatId): SeatStatus {
    if log == [] then Available
    else if seat in log[|log| - 1].seats then log[|log| - 1].state
    else StatusAfter(log[..|log| - 1], seat)
  }

  /** The log and the table tell the same story, and the log never names a seat under a wrong event. */
  ghost predicate LogAgrees(inv: Inventory) {
    && (forall s :: s in inv.seats ==> inv.seats[s].status == StatusAfter(inv.log, s))
    && (forall i, s :: 0 <= i < |inv.log| && s in inv.log[i].seats ==> s in inv.seats && inv.seats[s].event == inv.log[i].event)
    && (forall i :: 0 <= i < |inv.log| ==> Spelled(inv.log[i]))
  }

  ghost predicate Spelled(e: SeatEvent) {
    Spells(e.words, e.event, e.seats)
  }

  ghost predicate HoldersAgree(t: Table) {
    forall s :: s in t ==> (t[s].status == Held <==> t[s].heldBy.Some?)
  }

  lemma StatusAfterOne(log: seq<SeatEvent>, e: SeatEvent, seat: SeatId)
    ensures StatusAfter(log + [e], seat) == if seat in e.seats then e.state else StatusAfter(log, seat)
  {
    assert (log + [e])[..|log|] == log;
  }

  lemma {:induction false} StatusAfterGroups(log: seq<SeatEvent>, groups: seq<SeatEvent>, seat: SeatId)
    requires forall i :: 0 <= i < |groups| ==> groups[i].state == Available
    ensures (exists i :: 0 <= i < |groups| && seat in groups[i].seats) ==> StatusAfter(log + groups, seat) == Available
    ensures (forall i :: 0 <= i < |groups| ==> seat !in groups[i].seats) ==> StatusAfter(log + groups, seat) == StatusAfter(log, seat)
  {
    if groups == [] {
      assert log + groups == log;
    } else {
      var front, last := groups[..|groups| - 1], groups[|groups| - 1];
      StatusAfterGroups(log, front, seat);
      assert log + groups == (log + front) + [last];
      StatusAfterOne(log + front, last, seat);
    }
  }

  lemma ReserveKeepsLog(inv: Inventory, event: EventId, ids: seq<SeatId>, order: OrderId, words: Words)
    requires LogAgrees(inv) && HoldersAgree(inv.seats) && Spells(words, event, ids)
    ensures var r := Reserve(inv, event, ids, order, words).0; LogAgrees(r) && HoldersAgree(r.seats)
  {
    var e := SeatEvent(event, ids, Held, words);
    forall s { StatusAfterOne(inv.log, e, s); }
  }

  lemma MoveKeepsLog(inv: Inventory, event: EventId, ids: seq<SeatId>, order: OrderId, to: SeatStatus, words: Words)
    requires LogAgrees(inv) && HoldersAgree(inv.seats) && to != Held && Spells(words, event, ids)
    ensures var r := Move(inv, event, ids, order, to, words).0; LogAgrees(r) && HoldersAgree(r.seats)
  {
    var e := SeatEvent(event, ids, to, words);
    forall s { StatusAfterOne(inv.log, e, s); }
  }

  lemma SweptStatus(inv: Inventory, expired: set<SeatId>, groups: seq<SeatEvent>, s: SeatId)
    requires LogAgrees(inv) && Grouping(inv.seats, Freed(inv.seats, expired), groups) && s in inv.seats
    ensures Sweep(inv, expired, groups).seats[s].status == StatusAfter(inv.log + groups, s)
  {
    StatusAfterGroups(inv.log, groups, s);
    if s in Freed(inv.seats, expired) {
      var i :| 0 <= i < |groups| && s in groups[i].seats;
    }
  }

  lemma SweepKeepsLog(inv: Inventory, expired: set<SeatId>, groups: seq<SeatEvent>)
    requires LogAgrees(inv) && HoldersAgree(inv.seats) && Grouping(inv.seats, Freed(inv.seats, expired), groups)
    ensures var r := Sweep(inv, expired, groups); LogAgrees(r) && HoldersAgree(r.seats)
  {
    var r := Sweep(inv, expired, groups);
    forall s | s in r.seats ensures r.seats[s].status == StatusAfter(r.log, s) { SweptStatus(inv, expired, groups, s); }
    forall i | 0 <= i < |r.log| ensures Spelled(r.log[i]) {
      if i >= |inv.log| { assert r.log[i] == groups[i - |inv.log|] && PlainlySpelled(groups[i - |inv.log|]); }
    }
  }

  lemma CreateKeepsLog(inv: Inventory, event: EventId, added: set<SeatId>)
    requires LogAgrees(inv) && HoldersAgree(inv.seats) && added !! inv.seats.Keys
    ensures var r := inv.(seats := inv.seats + NewSeats(event, added)); LogAgrees(r) && HoldersAgree(r.seats)
  {
    forall s | s in added ensures StatusAfter(inv.log, s) == Available {
      NeverNamed(inv.log, s);
    }
  }

  function NewSeats(event: EventId, added: set<SeatId>): Table {
    map s | s in added :: Seat(event, Available, None)
  }

  lemma {:induction false} NeverNamed(log: seq<SeatEvent>, seat: SeatId)
    requires forall i :: 0 <= i < |log| ==> seat !in log[i].seats
    ensures StatusAfter(log, seat) == Available
  {
    if log != [] { NeverNamed(log[..|log| - 1], seat); }
  }
}
