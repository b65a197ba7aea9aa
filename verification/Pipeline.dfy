/**
 * The whole path of an order event: the purchase protocol writes the outbox, publisher replicas relay it
 * to Kafka, the analytics consumer reads it there, and the projection counts it. One machine, all steps
 * interleaved; its promise is an exactly-once effect over at-least-once delivery.
 */
module Pipeline {
  import opened Domain
  import P = Purchase
  import PI = PurchaseInvariant
  import PT = PurchaseTheorems
  import R = Relay
  import C = ConsumerMachine
  import J = Projection

  datatype System = System(shop: P.State, relay: R.State<OrderEvent>, consumer: C.State, table: J.Table)

  const INIT := System(P.INIT, R.Init(), C.INIT, J.Table({}, map[]))

  datatype Step =
    | Shop(shop: P.Step)
    | Publish(relay: R.Step<OrderEvent>)
    | Consume(consume: C.Step)
    | HandleEvent(offset: nat, fault: Fault)

  /** The record as the projection decodes it; the payload carries the row id as its message id. */
  function BodyOf(m: R.Msg<OrderEvent>): J.Body {
    J.Decoded(m.value.typ, Some(m.id), Some(m.value.event), |m.value.seats|, m.value.amount)
  }

  function Handling(s: System, offset: nat, fault: Fault): (J.Table, C.Outcome)
    requires offset < |s.relay.topic|
  {
    J.Handle(s.table, BodyOf(s.relay.topic[offset]), fault)
  }

  ghost predicate Enabled(cfg: C.Config, s: System, st: Step) {
    match st
    case Shop(p) => P.Enabled(s.shop, p)
    case Publish(r) => !r.AddRows? && R.Enabled(s.relay, r)
    case Consume(c) => !c.Attempt? && C.Enabled(cfg, s.consumer, |s.relay.topic|, c)
    case HandleEvent(x, fault) =>
      x < |s.relay.topic| && C.Enabled(cfg, s.consumer, |s.relay.topic|, C.Attempt(x, Handling(s, x, fault).1))
  }

  ghost function Do(cfg: C.Config, s: System, st: Step): System
    requires Enabled(cfg, s, st)
  {
    match st
    case Shop(p) =>
      var shop := P.Do(s.shop, p);
      s.(shop := shop, relay := s.relay.(rows := shop.outbox))
    case Publish(r) => s.(relay := R.Do(s.relay, r))
    case Consume(c) => s.(consumer := C.Do(cfg, s.consumer, |s.relay.topic|, c))
    case HandleEvent(x, fault) =>
      var (table, outcome) := Handling(s, x, fault);
      s.(table := table, consumer := C.Do(cfg, s.consumer, |s.relay.topic|, C.Attempt(x, outcome)))
  }

  ghost predicate Next(cfg: C.Config, s: System, t: System) {
    exists st :: Enabled(cfg, s, st) && t == Do(cfg, s, st)
  }

  ghost predicate Linked(cfg: C.Config, run: seq<System>, i: int)
    requires 0 < i < |run|
  {
    Next(cfg, run[i - 1], run[i])
  }

  ghost predicate IsRun(cfg: C.Config, run: seq<System>) {
    C.ValidConfig(cfg) && run != [] && run[0] == INIT && forall i :: 0 < i < |run| ==> Linked(cfg, run, i)
  }

  // ---- the invariant ----

  function VerdictStats(e: OrderEvent): J.Stats {
    if e.typ == OrderConfirmed then J.Stats(|e.seats|, e.amount, 1, 0) else J.Stats(0, 0, 0, 1)
  }

  /** What each outbox row stands for in the statistics; ORDER_CREATED stands for nothing. */
  function BookOf(outbox: seq<OrderEvent>): J.Book {
    map m: nat | 0 <= m < |outbox| && outbox[m].typ != OrderCreated :: J.Change(m, outbox[m].event, VerdictStats(outbox[m]))
  }

  /** Every message the consumer counts as handled has been counted by the projection. */
  ghost predicate HandledAreCounted(s: System) {
    forall x :: x in s.consumer.handled && x < |s.relay.topic| && s.relay.topic[x].value.typ != OrderCreated ==>
      s.relay.topic[x].id in s.table.processed
  }

  ghost predicate Inv(cfg: C.Config, s: System) {
    && PI.Inv(s.shop)
    && R.Inv(s.relay) && s.relay.rows == s.shop.outbox
    && C.Inv(cfg, s.consumer, |s.relay.topic|)
    && J.CountsOnce(s.table, BookOf(s.shop.outbox))
    && HandledAreCounted(s)
  }

  lemma InitInv(cfg: C.Config)
    ensures Inv(cfg, INIT)
  {
    PI.InitInv();
    J.NothingCounted(BookOf([]));
  }

  /** Writing more outbox rows does not change what the counted ones add up to. */
  lemma BookGrows(t: J.Table, a: seq<OrderEvent>, b: seq<OrderEvent>)
    requires a <= b && J.CountsOnce(t, BookOf(a))
    ensures J.CountsOnce(t, BookOf(b))
  {
    var x, y := BookOf(a), BookOf(b);
    assert forall m :: m in x ==> m in y && x[m] == y[m];
    forall e ensures J.EventCounted(t, y, e) {
      assert J.EventCounted(t, x, e);
      SameTotal(x, y, t.processed, e);
      if J.Touched(x, t.processed, e) {
        var m :| m in t.processed && m in x && x[m].event == e;
        assert m in y && y[m].event == e;
      }
      if J.Touched(y, t.processed, e) {
        var m :| m in t.processed && m in y && y[m].event == e;
        assert m in x;
      }
    }
  }

  lemma SameTotal(x: J.Book, y: J.Book, ids: set<nat>, e: EventId)
    requires forall m :: m in ids ==> m in x && m in y && x[m] == y[m]
    ensures J.Total(x, ids, e) == J.Total(y, ids, e)
  {
    J.SameParts(x, y, ids, e, (d: J.Stats) => d.tickets);
    J.SameParts(x, y, ids, e, (d: J.Stats) => d.revenue);
    J.SameParts(x, y, ids, e, (d: J.Stats) => d.confirmed);
    J.SameParts(x, y, ids, e, (d: J.Stats) => d.failed);
  }

  /** The shop may move to any good state that only adds to its outbox. */
  lemma ShopMoves(cfg: C.Config, s: System, shop: P.State)
    requires Inv(cfg, s) && PI.Inv(shop) && s.shop.outbox <= shop.outbox
    ensures Inv(cfg, s.(shop := shop, relay := R.Do(s.relay, R.AddRows(shop.outbox[|s.shop.outbox|..]))))
  {
    var added := shop.outbox[|s.shop.outbox|..];
    assert shop.outbox == s.shop.outbox + added;
    assert R.Inv(R.Do(s.relay, R.AddRows(added))) by { R.StepInv(s.relay, R.AddRows(added)); }
    BookGrows(s.table, s.shop.outbox, shop.outbox);
  }

  lemma {:induction false} ShopInv(cfg: C.Config, s: System, p: P.Step)
    requires Inv(cfg, s) && P.Enabled(s.shop, p)
    ensures Inv(cfg, Do(cfg, s, Shop(p)))
  {
    PI.StepInv(s.shop, p);
    PT.StepLater(s.shop, p);
    ShopMoves(cfg, s, P.Do(s.shop, p));
  }

  lemma {:induction false} PublishInv(cfg: C.Config, s: System, r: R.Step<OrderEvent>)
    requires Inv(cfg, s) && Enabled(cfg, s, Publish(r))
    ensures Inv(cfg, Do(cfg, s, Publish(r)))
  {
    R.StepInv(s.relay, r);
    var t := Do(cfg, s, Publish(r));
    assert s.relay.topic <= t.relay.topic;
    LongerTopic(cfg, s.consumer, |s.relay.topic|, |t.relay.topic|);
  }

  lemma LongerTopic(cfg: C.Config, c: C.State, n: nat, m: nat)
    requires C.Inv(cfg, c, n) && n <= m
    ensures C.Inv(cfg, c, m)
  {
  }

  lemma {:induction false} ConsumeInv(cfg: C.Config, s: System, c: C.Step)
    requires C.ValidConfig(cfg) && Inv(cfg, s) && Enabled(cfg, s, Consume(c))
    ensures Inv(cfg, Do(cfg, s, Consume(c)))
  {
    C.StepInv(cfg, s.consumer, |s.relay.topic|, c);
  }

  /** Handling a record counts the row it carries, if it reports success and the row is a verdict, and loses nothing. */
  lemma HandlingCounts(t: J.Table, outbox: seq<OrderEvent>, m: R.Msg<OrderEvent>, fault: Fault)
    requires J.CountsOnce(t, BookOf(outbox)) && m.id < |outbox| && m.value == outbox[m.id]
    ensures var (after, outcome) := J.Handle(t, BodyOf(m), fault);
      && J.CountsOnce(after, BookOf(outbox)) && t.processed <= after.processed
      && (outcome == C.Ok && m.value.typ != OrderCreated ==> m.id in after.processed)
  {
    BookIsValid(outbox);
    if m.value.typ != OrderCreated { ParsedIsInBook(outbox, m); }
    J.HandleCounts(t, BookOf(outbox), BodyOf(m), fault);
  }

  lemma BookIsValid(outbox: seq<OrderEvent>)
    ensures J.ValidBook(BookOf(outbox))
  {
  }

  lemma ParsedIsInBook(outbox: seq<OrderEvent>, m: R.Msg<OrderEvent>)
    requires m.id < |outbox| && m.value == outbox[m.id] && m.value.typ != OrderCreated
    ensures m.id in BookOf(outbox) && J.Parse(BodyOf(m)) == J.Counts(BookOf(outbox)[m.id])
  {
  }

  lemma {:induction false} HandleInv(cfg: C.Config, s: System, x: nat, fault: Fault)
    requires C.ValidConfig(cfg) && Inv(cfg, s) && Enabled(cfg, s, HandleEvent(x, fault))
    ensures Inv(cfg, Do(cfg, s, HandleEvent(x, fault)))
  {
    var outcome := Handling(s, x, fault).1;
    HandlingCounts(s.table, s.shop.outbox, s.relay.topic[x], fault);
    C.StepInv(cfg, s.consumer, |s.relay.topic|, C.Attempt(x, outcome));
  }

  lemma {:induction false} StepInv(cfg: C.Config, s: System, st: Step)
    requires C.ValidConfig(cfg) && Inv(cfg, s) && Enabled(cfg, s, st)
    ensures Inv(cfg, Do(cfg, s, st))
  {
    match st
    case Shop(p) => ShopInv(cfg, s, p);
    case Publish(r) => PublishInv(cfg, s, r);
    case Consume(c) => ConsumeInv(cfg, s, c);
    case HandleEvent(x, fault) => HandleInv(cfg, s, x, fault);
  }

  lemma NextInv(cfg: C.Config, s: System, t: System)
    requires C.ValidConfig(cfg) && Inv(cfg, s) && Next(cfg, s, t)
    ensures Inv(cfg, t)
  {
    var st :| Enabled(cfg, s, st) && t == Do(cfg, s, st);
    StepInv(cfg, s, st);
  }

  lemma {:induction false} RunInv(cfg: C.Config, run: seq<System>, i: nat)
    requires IsRun(cfg, run) && i < |run|
    ensures Inv(cfg, run[i])
  {
    if i == 0 {
      InitInv(cfg);
    } else {
      RunInv(cfg, run, i - 1);
      assert Linked(cfg, run, i);
      NextInv(cfg, run[i - 1], run[i]);
    }
  }
}
