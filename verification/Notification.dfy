/** notification-svc: what the customer is told about an order, and that it is true (handler.go). */
module Notification {
  import opened Domain
  import PI = PurchaseInvariant
  import PT = PurchaseTheorems
  import C = ConsumerMachine
  import L = Pipeline
  import LT = PipelineTheorems

  datatype Email = Email(to: UserId, subject: string, body: string)

  // ---- composing the text ----

  function Digit(d: nat): char
    requires d < 10
  {
    ['0', '1', '2', '3', '4', '5', '6', '7', '8', '9'][d]
  }

  function Digits(n: nat): string {
    if n < 10 then [Digit(n)] else Digits(n / 10) + [Digit(n % 10)]
  }

  /** %d */
  function Decimal(n: int): string {
    if n < 0 then "-" + Digits(-n) else Digits(n)
  }

  /** %02d */
  function Padded(n: int): string {
    if 0 <= n < 10 then "0" + Digits(n) else Decimal(n)
  }

  /** money: Go's / and % both truncate toward zero. */
  function Units(cents: int): int {
    if cents < 0 then -(-cents / 100) else cents / 100
  }

  function Money(cents: int): string {
    Decimal(Units(cents)) + "." + Padded(cents - 100 * Units(cents))
  }

  function ReasonText(r: FailureReason): string {
    match r
    case SeatsUnavailable => "the seats are no longer available"
    case PaymentDeclined => "your payment was declined"
    case ServiceUnavailable => "one of our services " + "was temporarily unavailable"
    case Unspecified => "of an unexpected problem"
  }

  const NOT_CHARGED := "You have not been charged."
  const MAYBE_CHARGED := "Please try again. " + "If you see a charge for this order, " + "contact support and we will refund it."

  function ChargeNote(r: FailureReason): string {
    match r
    case SeatsUnavailable => NOT_CHARGED
    case PaymentDeclined => NOT_CHARGED
    case _ => MAYBE_CHARGED
  }

  function Compose(e: OrderEvent): Option<Email> {
    match e.typ
    case OrderCreated => None
    case OrderConfirmed =>
      Some(Email(e.user, "Your tickets are confirmed",
                 "Order " + Digits(e.order) + " is confirmed: " + Digits(|e.seats|) + " seat(s), " + Money(e.amount) + " charged."))
    case OrderFailed =>
      Some(Email(e.user, "We couldn't complete your order",
                 "Order " + Digits(e.order) + " was not completed because " + ReasonText(e.reason) + ". " + ChargeNote(e.reason)))
  }

  // ---- reading the text back ----

  /** The number a row of digits stands for. */
  function Value(s: string): int {
    if s == [] then 0 else 10 * Value(s[..|s| - 1]) + (s[|s| - 1] as int - '0' as int)
  }

  function Signed(s: string): int {
    if s != [] && s[0] == '-' then -Value(s[1..]) else Value(s)
  }

  /** The number of characters before the first point. */
  function Point(s: string): nat {
    if s == [] || s[0] == '.' then 0 else 1 + Point(s[1..])
  }

  /** The cents that an amount such as 12.05 stands for. */
  function Cents(s: string): int {
    var n := Point(s);
    if n < |s| then 100 * Signed(s[..n]) + Signed(s[n + 1..]) else 100 * Signed(s)
  }

  lemma ValueOne(s: string, c: char)
    ensures Value(s + [c]) == 10 * Value(s) + (c as int - '0' as int)
  {
    assert (s + [c])[..|s|] == s;
  }

  lemma {:induction false} DigitsRead(n: nat)
    ensures Value(Digits(n)) == n && Digits(n) != [] && '.' !in Digits(n) && '-' !in Digits(n)
  {
    if n < 10 {
      ValueOne([], Digit(n));
      assert [] + [Digit(n)] == Digits(n);
    } else {
      DigitsRead(n / 10);
      ValueOne(Digits(n / 10), Digit(n % 10));
    }
  }

  lemma DecimalReads(n: int)
    ensures Signed(Decimal(n)) == n && '.' !in Decimal(n)
  {
    DigitsRead(if n < 0 then -n else n);
    if n < 0 { assert Decimal(n)[1..] == Digits(-n); } else { assert Decimal(n)[0] in Digits(n); }
  }

  lemma PaddedReads(n: int)
    ensures Signed(Padded(n)) == n
  {
    if 0 <= n < 10 {
      assert "0" + Digits(n) == ['0', Digit(n)];
      ValueOne(['0'], Digit(n));
      ValueOne([], '0');
      assert [] + ['0'] == ['0'] && ['0'] + [Digit(n)] == ['0', Digit(n)];
    } else {
      DecimalReads(n);
    }
  }

  lemma {:induction false} PointAfter(a: string, b: string)
    requires '.' !in a
    ensures Point(a + "." + b) == |a|
  {
    var s := a + "." + b;
    if a != [] {
      PointAfter(a[1..], b);
      assert s[1..] == a[1..] + "." + b && s[0] == a[0];
    }
  }

  lemma CentsOf(a: string, b: string)
    requires '.' !in a
    ensures Cents(a + "." + b) == 100 * Signed(a) + Signed(b)
  {
    PointAfter(a, b);
    var s := a + "." + b;
    assert s[..|a|] == a && s[|a| + 1..] == b;
  }

  /** The amount in an email reads back as the cents it was made from, whatever their sign. */
  lemma MoneyReadsBack(cents: int)
    ensures Cents(Money(cents)) == cents
  {
    var units := Units(cents);
    var rest := cents - 100 * units;
    DecimalReads(units);
    PaddedReads(rest);
    CentsOf(Decimal(units), Padded(rest));
  }

  /** A confirmation goes to the order's user and names the order, the number of seats and the amount. */
  lemma ConfirmationSays(e: OrderEvent) returns (order: string, seats: string, amount: string)
    requires e.typ == OrderConfirmed
    ensures Compose(e).Some? && Compose(e).value.to == e.user
    ensures Compose(e).value.body == "Order " + order + " is confirmed: " + seats + " seat(s), " + amount + " charged."
    ensures Value(order) == e.order && Value(seats) == |e.seats| && Cents(amount) == e.amount
  {
    order, seats, amount := Digits(e.order), Digits(|e.seats|), Money(e.amount);
    DigitsRead(e.order);
    DigitsRead(|e.seats|);
    MoneyReadsBack(e.amount);
  }

  /** A failure email goes to the order's user and names the order, the reason and what is known of the charge. */
  lemma FailureSays(e: OrderEvent) returns (order: string, reason: string, note: string)
    requires e.typ == OrderFailed
    ensures Compose(e).Some? && Compose(e).value.to == e.user && Value(order) == e.order
    ensures Compose(e).value.body == "Order " + order + " was not completed because " + reason + ". " + note
    ensures match e.reason
      case SeatsUnavailable => reason == "the seats are no longer available" && note == NOT_CHARGED
      case PaymentDeclined => reason == "your payment was declined" && note == NOT_CHARGED
      case ServiceUnavailable => reason == "one of our services " + "was temporarily unavailable" && note == MAYBE_CHARGED
      case Unspecified => reason == "of an unexpected problem" && note == MAYBE_CHARGED
  {
    order, reason, note := Digits(e.order), ReasonText(e.reason), ChargeNote(e.reason);
    DigitsRead(e.order);
  }

  /** The text says the sentence somewhere. */
  ghost predicate Says(s: string, sentence: string) {
    exists before: string, after: string :: s == before + sentence + after
  }

  /** Only the promise has a capital Y in it. */
  lemma NeedsItsFirstLetter(s: string, sentence: string)
    requires sentence != [] && sentence[0] !in s
    ensures !Says(s, sentence)
  {
    forall before: string, after: string ensures s != before + sentence + after {
      assert (before + sentence + after)[|before|] == sentence[0];
    }
  }

  lemma {:induction false} DigitsHaveNoY(n: nat)
    ensures 'Y' !in Digits(n)
  {
    if n >= 10 { DigitsHaveNoY(n / 10); }
  }

  lemma MoneyHasNoY(cents: int)
    ensures 'Y' !in Money(cents)
  {
    var units := Units(cents);
    var rest := cents - 100 * units;
    DigitsHaveNoY(if units < 0 then -units else units);
    DigitsHaveNoY(if rest < 0 then -rest else rest);
    assert 'Y' !in Decimal(units) && 'Y' !in Padded(rest);
  }

  lemma JoinedHaveNoY(a: string, b: string, c: string, d: string)
    requires 'Y' !in a && 'Y' !in b && 'Y' !in c && 'Y' !in d
    ensures 'Y' !in a + b + c + d
  {
  }

  lemma ConfirmedPromisesNothing(e: OrderEvent)
    requires e.typ == OrderConfirmed
    ensures 'Y' !in Compose(e).value.body
  {
    DigitsHaveNoY(e.order);
    DigitsHaveNoY(|e.seats|);
    MoneyHasNoY(e.amount);
    JoinedHaveNoY("Order ", Digits(e.order), " is confirmed: ", Digits(|e.seats|));
    JoinedHaveNoY("Order " + Digits(e.order) + " is confirmed: " + Digits(|e.seats|), " seat(s), ", Money(e.amount), " charged.");
  }

  lemma ReasonHasNoY(r: FailureReason)
    ensures 'Y' !in ReasonText(r)
  {
    match r
    case SeatsUnavailable => assert 'Y' !in "the seats are no longer available";
    case PaymentDeclined => assert 'Y' !in "your payment was declined";
    case ServiceUnavailable => assert 'Y' !in "one of our services " && 'Y' !in "was temporarily unavailable";
    case Unspecified => assert 'Y' !in "of an unexpected problem";
  }

  lemma AdviceHasNoY()
    ensures 'Y' !in MAYBE_CHARGED
  {
    JoinedHaveNoY("Please try again. ", "If you see a charge for this order, ", "contact support and we will refund it.", "");
  }

  lemma BreakdownPromisesNothing(e: OrderEvent)
    requires e.typ == OrderFailed && e.reason != SeatsUnavailable && e.reason != PaymentDeclined
    ensures 'Y' !in Compose(e).value.body
  {
    DigitsHaveNoY(e.order);
    ReasonHasNoY(e.reason);
    AdviceHasNoY();
    JoinedHaveNoY("Order ", Digits(e.order), " was not completed because ", ReasonText(e.reason));
    JoinedHaveNoY("Order " + Digits(e.order) + " was not completed because " + ReasonText(e.reason), ". ", MAYBE_CHARGED, "");
  }

  /** The email says "You have not been charged." exactly for orders that a service refused. */
  lemma PromiseExactlyOnRefusal(e: OrderEvent)
    ensures Compose(e).Some? && Says(Compose(e).value.body, NOT_CHARGED) <==> PT.AnnouncesRefusal(e)
  {
    if PT.AnnouncesRefusal(e) {
      var lead := "Order " + Digits(e.order) + " was not completed because " + ReasonText(e.reason) + ". ";
      var body := Compose(e).value.body;
      assert body == lead + NOT_CHARGED;
      assert body == lead + NOT_CHARGED + "";
    } else if e.typ != OrderCreated {
      if e.typ == OrderConfirmed { ConfirmedPromisesNothing(e); } else { BreakdownPromisesNothing(e); }
      assert NOT_CHARGED[0] == 'Y';
      NeedsItsFirstLetter(Compose(e).value.body, NOT_CHARGED);
    }
  }

  // ---- the promises are kept ----

  lemma ShopStepLater(cfg: C.Config, s: L.System, st: L.Step)
    requires PI.Inv(s.shop) && L.Enabled(cfg, s, st)
    ensures PT.Later(s.shop, L.Do(cfg, s, st).shop)
  {
    match st
    case Shop(p) => PT.StepLater(s.shop, p);
    case _ => PT.LaterSame(s.shop);
  }

  lemma NextShopLater(cfg: C.Config, s: L.System, t: L.System)
    requires PI.Inv(s.shop) && L.Next(cfg, s, t)
    ensures PT.Later(s.shop, t.shop)
  {
    var st :| L.Enabled(cfg, s, st) && t == L.Do(cfg, s, st);
    ShopStepLater(cfg, s, st);
  }

  lemma {:induction false} ShopLater(cfg: C.Config, run: seq<L.System>, i: nat, j: nat)
    requires L.IsRun(cfg, run) && i <= j < |run|
    ensures PT.Later(run[i].shop, run[j].shop)
    decreases j
  {
    if i == j {
      PT.LaterSame(run[i].shop);
    } else {
      ShopLater(cfg, run, i, j - 1);
      assert PI.Inv(run[j - 1].shop) by { L.RunInv(cfg, run, j - 1); }
      assert L.Linked(cfg, run, j);
      NextShopLater(cfg, run[j - 1], run[j]);
      PT.LaterTransitive(run[i].shop, run[j - 1].shop, run[j].shop);
    }
  }

  lemma TopicIsOutbox(cfg: C.Config, run: seq<L.System>, i: nat, x: nat, j: nat)
    requires L.IsRun(cfg, run) && i <= j < |run| && x < |run[i].relay.topic|
    ensures run[i].relay.topic[x].id < |run[j].shop.outbox|
    ensures run[j].shop.outbox[run[i].relay.topic[x].id] == run[i].relay.topic[x].value
  {
    L.RunInv(cfg, run, i);
    ShopLater(cfg, run, i, j);
  }

  /** An email is written exactly about verdicts, and goes to the user whose order it is about. */
  lemma EmailGoesToTheCustomer(cfg: C.Config, run: seq<L.System>, i: nat, x: nat)
    requires L.IsRun(cfg, run) && i < |run| && x < |run[i].relay.topic|
    ensures var e := run[i].relay.topic[x].value; var shop := run[i].shop;
      && (Compose(e).Some? <==> e.typ != OrderCreated)
      && (Compose(e).Some? ==> e.order in shop.orders && Compose(e).value.to == shop.orders[e.order].user)
  {
    TopicIsOutbox(cfg, run, i, x, i);
    L.RunInv(cfg, run, i);
    if run[i].relay.topic[x].value.typ != OrderCreated { PT.VerdictRow(run[i].shop, run[i].relay.topic[x].id); }
  }

  /** Once an email can say "You have not been charged.", that order is not charged, then or in any later state. */
  lemma NotChargedIsTrue(cfg: C.Config, run: seq<L.System>, i: nat, x: nat, j: nat)
    requires L.IsRun(cfg, run) && i <= j < |run| && x < |run[i].relay.topic|
    requires var mail := Compose(run[i].relay.topic[x].value); mail.Some? && Says(mail.value.body, NOT_CHARGED)
    ensures !PT.Charged(run[j].shop, run[i].relay.topic[x].value.order)
  {
    var m := run[i].relay.topic[x];
    PromiseExactlyOnRefusal(m.value);
    TopicIsOutbox(cfg, run, i, x, j);
    L.RunInv(cfg, run, j);
    PT.RefusalInOutbox(run[j].shop, m.id);
  }

  /** An email confirming an order states what was really charged, for seats that are really sold to it. */
  lemma ConfirmationIsTrue(cfg: C.Config, run: seq<L.System>, i: nat, x: nat)
    requires L.IsRun(cfg, run) && i < |run| && x < |run[i].relay.topic| && run[i].relay.topic[x].value.typ == OrderConfirmed
    ensures var e := run[i].relay.topic[x].value; var shop := run[i].shop;
      && (exists n :: 0 <= n < |shop.payments| && shop.payments[n] == Payment(e.order, e.amount, true))
      && forall k :: k in e.seats ==> k in LT.SoldSeats(shop, e.event)
  {
    L.RunInv(cfg, run, i);
    var m := run[i].relay.topic[x];
    var shop := run[i].shop;
    LT.VerdictsDoMatch(shop);
    assert LT.IsVerdict(shop, m.id) && LT.RowMatches(shop, m.id);
    assert LT.Confirms(shop, m.value.order);
    assert forall k :: k in m.value.seats ==> k in LT.SoldSeats(shop, m.value.event) by { LT.SeatsAreOwned(shop); }
    LT.MoneyDoesMatch(shop);
    var n :| 0 <= n < |shop.payments| && shop.payments[n].order == m.value.order && shop.payments[n].succeeded;
    assert LT.PaysFor(shop, n);
    assert shop.payments[n] == Payment(m.value.order, m.value.amount, true);
  }
}
