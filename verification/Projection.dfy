/** analytics-svc: the statistics kept per event, and the order messages they are computed from (projection.go). */
module Projection {
  import opened Domain
  import opened Sums
  import opened ConsumerMachine

  datatype Stats = Stats(tickets: int, revenue: int, confirmed: int, failed: int)

  const ZERO := Stats(0, 0, 0, 0)

  function Plus(a: Stats, b: Stats): Stats {
    Stats(a.tickets + b.tickets, a.revenue + b.revenue, a.confirmed + b.confirmed, a.failed + b.failed)
  }

  datatype Change = Change(message: nat, event: EventId, delta: Stats)

  /** A Kafka record as parse sees it: a body that decodes or not, with ids that parse or not. */
  datatype Body = Undecodable | Decoded(typ: OrderEventType, message: Option<nat>, event: Option<EventId>, seats: nat, amount: int)

  datatype Parsed = Counts(change: Change) | Ignored | Hopeless

  /** parse: what an order event does to the statistics, if anything. */
  function Parse(b: Body): Parsed {
    match b
    case Undecodable => Hopeless
    case Decoded(OrderCreated, _, _, _, _) => Ignored
    case Decoded(typ, message, event, seats, amount) =>
      if message.None? || event.None? then Hopeless
      else Counts(Change(message.value, event.value,
                         if typ == OrderConfirmed then Stats(seats, amount, 1, 0) else Stats(0, 0, 0, 1)))
  }

  datatype Table = Table(processed: set<nat>, stats: map<EventId, Stats>)

  function StatsOf(t: Table, event: EventId): Stats {
    if event in t.stats then t.stats[event] else ZERO
  }

  /** apply: the message is recorded and counted together, unless it was recorded before. */
  function Apply(t: Table, c: Change): Table {
    if c.message in t.processed then t
    else Table(t.processed + {c.message}, t.stats[c.event := Plus(StatsOf(t, c.event), c.delta)])
  }

  /** Handle: the new tables and what the consumer is told. */
  function Handle(t: Table, b: Body, fault: Fault): (Table, Outcome) {
    match Parse(b)
    case Hopeless => (t, Permanent)
    case Ignored => (t, Ok)
    case Counts(c) =>
      (if fault == RolledBack then t else Apply(t, c), if fault == Clean then Ok else Retry)
  }

  /** A verdict with both its ids. */
  predicate Countable(b: Body) {
    b.Decoded? && b.typ != OrderCreated && b.message.Some? && b.event.Some?
  }

  /** A confirmed order adds its seats, its amount and one confirmed order; a failed one adds one failed order. */
  function OneMore(s: Stats, b: Body): Stats
    requires Countable(b)
  {
    if b.typ == OrderConfirmed then Stats(s.tickets + b.seats, s.revenue + b.amount, s.confirmed + 1, s.failed)
    else Stats(s.tickets, s.revenue, s.confirmed, s.failed + 1)
  }

  lemma OneMoreIsPlus(s: Stats, b: Body)
    requires Countable(b)
    ensures Parse(b).Counts? && Parse(b).change.message == b.message.value && Parse(b).change.event == b.event.value
    ensures Plus(s, Parse(b).change.delta) == OneMore(s, b)
  {
  }

  /** The service: the two tables are updated in place, inside a transaction. */
  class Projector {
    var processed: set<nat>
    var stats: map<EventId, Stats>

    ghost function Contents(): Table
      reads this
    {
      Table(processed, stats)
    }

    constructor ()
      ensures Contents() == Table({}, map[])
    {
      processed, stats := {}, map[];
    }

    method HandleMessage(b: Body, fault: Fault) returns (result: Outcome)
      modifies this
      ensures Contents() == Handle(old(Contents()), b, fault).0
      ensures result == Handle(old(Contents()), b, fault).1
      ensures b.Undecodable? || (b.typ != OrderCreated && (b.message.None? || b.event.None?)) ==>
        result == Permanent && processed == old(processed) && stats == old(stats)
      ensures b.Decoded? && b.typ == OrderCreated ==> result == Ok && processed == old(processed) && stats == old(stats)
      ensures Countable(b) ==> result == if fault == Clean then Ok else Retry
      ensures Countable(b) && (fault == RolledBack || b.message.value in old(processed)) ==>
        processed == old(processed) && stats == old(stats)
      ensures Countable(b) && fault != RolledBack && b.message.value !in old(processed) ==>
        && processed == old(processed) + {b.message.value}
        && stats == old(stats)[b.event.value := OneMore(if b.event.value in old(stats) then old(stats)[b.event.value] else ZERO, b)]
    {
      var p := Parse(b);
      if p.Hopeless? {
        return Permanent;
      }
      if p.Ignored? {
        return Ok;
      }
      assert Countable(b);
      OneMoreIsPlus(if p.change.event in stats then stats[p.change.event] else ZERO, b);
      result := Transact(p.change, fault);
    }

    /** apply, in a transaction: INSERT ... ON CONFLICT DO NOTHING, and the counts only if a row was inserted. */
    method Transact(c: Change, fault: Fault) returns (result: Outcome)
      modifies this
      ensures result == if fault == Clean then Ok else Retry
      ensures fault == RolledBack || c.message in old(processed) ==> processed == old(processed) && stats == old(stats)
      ensures fault != RolledBack && c.message !in old(processed) ==>
        && processed == old(processed) + {c.message}
        && stats == old(stats)[c.event := Plus(if c.event in old(stats) then old(stats)[c.event] else ZERO, c.delta)]
    {
      var txProcessed: set<nat> := processed;
      var txStats: map<EventId, Stats> := stats;
      if c.message !in txProcessed {
        txProcessed := txProcessed + {c.message};
        var base := if c.event in txStats then txStats[c.event] else ZERO;
        txStats := txStats[c.event := Plus(base, c.delta)];
      }
      if fault == RolledBack {
        return Retry;
      }
      processed, stats := txProcessed, txStats;
      return if fault == Clean then Ok else Retry;
    }
  }

  // ---- exactly-once effect ----

  /** What each message id stands for. A redelivery carries the same content. */
  type Book = map<nat, Change>

  ghost predicate ValidBook(book: Book) {
    forall m :: m in book ==> book[m].message == m
  }

  ghost function Part(book: Book, event: EventId, pick: Stats -> int): nat -> int {
    m => if m in book && book[m].event == event then pick(book[m].delta) else 0
  }

  /** The statistics of an event, counting each of these messages once. */
  ghost function Total(book: Book, ids: set<nat>, event: EventId): Stats {
    Stats(Sum(ids, Part(book, event, (d: Stats) => d.tickets)), Sum(ids, Part(book, event, (d: Stats) => d.revenue)),
          Sum(ids, Part(book, event, (d: Stats) => d.confirmed)), Sum(ids, Part(book, event, (d: Stats) => d.failed)))
  }

  ghost predicate Touched(book: Book, ids: set<nat>, event: EventId) {
    exists m :: m in ids && m in book && book[m].event == event
  }

  ghost predicate CountsOnce(t: Table, book: Book) {
    && t.processed <= book.Keys
    && forall e :: EventCounted(t, book, e)
  }

  ghost predicate EventCounted(t: Table, book: Book, e: EventId) {
    (e in t.stats <==> Touched(book, t.processed, e)) && StatsOf(t, e) == Total(book, t.processed, e)
  }

  lemma SameParts(x: Book, y: Book, ids: set<nat>, event: EventId, pick: Stats -> int)
    requires forall m :: m in ids ==> m in x && m in y && x[m] == y[m]
    ensures Sum(ids, Part(x, event, pick)) == Sum(ids, Part(y, event, pick))
  {
    SumSame(ids, Part(x, event, pick), Part(y, event, pick));
  }

  lemma TotalAdd(book: Book, ids: set<nat>, m: nat, event: EventId)
    requires m !in ids && m in book
    ensures Total(book, ids + {m}, event) ==
      if book[m].event == event then Plus(Total(book, ids, event), book[m].delta) else Total(book, ids, event)
  {
    SumAdd(ids, m, Part(book, event, (d: Stats) => d.tickets));
    SumAdd(ids, m, Part(book, event, (d: Stats) => d.revenue));
    SumAdd(ids, m, Part(book, event, (d: Stats) => d.confirmed));
    SumAdd(ids, m, Part(book, event, (d: Stats) => d.failed));
  }

  lemma TouchedAdd(book: Book, ids: set<nat>, m: nat, event: EventId)
    requires m in book
    ensures Touched(book, ids + {m}, event) <==> Touched(book, ids, event) || book[m].event == event
  {
    var more := ids + {m};
    assert m in more;
    if x :| x in ids && x in book && book[x].event == event { assert x in more; }
  }

  lemma ApplyCountsOnce(t: Table, book: Book, c: Change)
    requires CountsOnce(t, book) && ValidBook(book) && c.message in book && book[c.message] == c
    ensures CountsOnce(Apply(t, c), book)
  {
    if c.message !in t.processed {
      var u := Apply(t, c);
      forall e ensures EventCounted(u, book, e) {
        assert EventCounted(t, book, e);
        TotalAdd(book, t.processed, c.message, e);
        TouchedAdd(book, t.processed, c.message, e);
      }
    }
  }

  /** Handling a message whose content is in the book keeps the counts, and counts it if success is reported. */
  lemma HandleCounts(t: Table, book: Book, b: Body, fault: Fault)
    requires CountsOnce(t, book) && ValidBook(book)
    requires Parse(b).Counts? ==> Parse(b).change.message in book && book[Parse(b).change.message] == Parse(b).change
    ensures var (after, outcome) := Handle(t, b, fault);
      && CountsOnce(after, book) && t.processed <= after.processed
      && (outcome == Ok && Parse(b).Counts? ==> Parse(b).change.message in after.processed)
  {
    if Parse(b).Counts? { ApplyCountsOnce(t, book, Parse(b).change); }
  }

  lemma NothingCounted(book: Book)
    ensures CountsOnce(Table({}, map[]), book)
  {
    forall e ensures EventCounted(Table({}, map[]), book, e) { assert Total(book, {}, e) == ZERO; }
  }

  datatype Delivery = Delivery(message: nat, fault: Fault)

  ghost function Deliver(t: Table, book: Book, ds: seq<Delivery>): Table {
    if ds == [] then t
    else
      var d := ds[|ds| - 1];
      var before := Deliver(t, book, ds[..|ds| - 1]);
      if d.message in book && d.fault != RolledBack then Apply(before, book[d.message]) else before
  }

  /** The messages some delivery of which was committed. */
  ghost function Committed(book: Book, ds: seq<Delivery>): set<nat> {
    set i | 0 <= i < |ds| && ds[i].fault != RolledBack && ds[i].message in book :: ds[i].message
  }

  lemma {:induction false} DeliverCountsOnce(book: Book, ds: seq<Delivery>)
    requires ValidBook(book)
    ensures CountsOnce(Deliver(Table({}, map[]), book, ds), book)
    ensures Deliver(Table({}, map[]), book, ds).processed == Committed(book, ds)
  {
    if ds == [] {
      assert CountsOnce(Table({}, map[]), book) by { NothingCounted(book); }
    } else {
      var front, d := ds[..|ds| - 1], ds[|ds| - 1];
      DeliverCountsOnce(book, front);
      var before := Deliver(Table({}, map[]), book, front);
      if d.message in book && d.fault != RolledBack {
        ApplyCountsOnce(before, book, book[d.message]);
        assert Committed(book, ds) == Committed(book, front) + {d.message};
      } else {
        assert Committed(book, ds) == Committed(book, front);
      }
    }
  }

  /** Order, repetition and rolled-back attempts leave no trace: the same messages give the same tables. */
  lemma OnlyTheSetMatters(book: Book, ds: seq<Delivery>, es: seq<Delivery>)
    requires ValidBook(book) && Committed(book, ds) == Committed(book, es)
    ensures Deliver(Table({}, map[]), book, ds) == Deliver(Table({}, map[]), book, es)
  {
    DeliverCountsOnce(book, ds);
    DeliverCountsOnce(book, es);
    var a, b := Deliver(Table({}, map[]), book, ds), Deliver(Table({}, map[]), book, es);
    forall e | e in a.stats || e in b.stats ensures e in a.stats && e in b.stats && a.stats[e] == b.stats[e] {
      assert EventCounted(a, book, e) && EventCounted(b, book, e);
    }
    assert a.stats == b.stats;
  }
}
