/** What a customer is told about a purchase, over whole runs: each answer rests on what happened to an order. */
module Answers {
  import opened Domain
  import opened SeatTable
  import opened Purchase
  import opened PurchaseInvariant
  import S = Saga
  import I = Idempotency
  import PT = PurchaseTheorems

  // ---- a purchase that is given up ----

  /**
   * An attempt that has answered and never asked for its seats to be sold has asked for them to be given back,
   * unless inventory had refused them, has asked for its failure to be recorded, and answered with that failure.
   */
  lemma GivenUpMeansReleased(run: seq<State>, i: nat, o: OrderId)
    requires IsRun(run) && i < |run| && o in run[i].attempts && run[i].attempts[o].pc.Done?
    requires run[i].attempts[o].reserve != S.Unsent && run[i].attempts[o].confirm == S.Unsent
    ensures var a := run[i].attempts[o];
      && (a.reserve != S.Answered(Refused) ==> a.release != S.Unsent)
      && a.record != S.Unsent && a.verdict.ToFailed?
      && (a.pc.answer == S.ErrSeatsUnavailable <==> a.verdict.reason == SeatsUnavailable)
      && (a.pc.answer == S.ErrPaymentDeclined <==> a.verdict.reason == PaymentDeclined)
      && (a.pc.answer == S.ErrServiceUnavailable <==> a.verdict.reason == ServiceUnavailable)
  {
    RunInv(run, i);
    assert AttemptSound(run[i], o);
  }

  // ---- an answer taken from an earlier order ----

  /** The replayed answer of attempt `o` rests on order `p`, which holds the request's key. */
  ghost predicate RestsOn(s: State, o: OrderId, p: OrderId) {
    && o in s.attempts && s.attempts[o].pc.Done? && p in s.attempts && p in s.orders
    && var r, b := s.attempts[o].req, s.attempts[p];
    && I.SameKey(s.orders[p], r)
    && match s.attempts[o].pc.answer
       case OrderPlaced(x) => x == p && s.orders[p].status == Confirmed && I.AsksFor(r, s.orders[p])
       case ErrSeatsUnavailable => b.verdict == S.ToFailed(SeatsUnavailable) && I.AsksFor(r, s.orders[p])
       case ErrPaymentDeclined => b.verdict == S.ToFailed(PaymentDeclined) && I.AsksFor(r, s.orders[p])
       case ErrServiceUnavailable => b.verdict == S.ToFailed(ServiceUnavailable) && I.AsksFor(r, s.orders[p])
       case ErrInProgress => I.AsksFor(r, s.orders[p])
       case ErrKeyReused => !(I.AsksFor(r, s.orders[p]) && I.CanonicallySpelled(r))
       case _ => false
  }

  /** The index refused the request, and it was answered otherwise than with an internal error. */
  ghost predicate AnsweredByReplay(a: S.Attempt) {
    a.insert == S.Answered(Refused) && a.pc.Done? && a.pc.answer != S.ErrInternal
  }

  ghost predicate Grounded(s: State, o: OrderId) {
    o in s.attempts && AnsweredByReplay(s.attempts[o]) ==> exists p :: RestsOn(s, o, p)
  }

  /** What was ordered never changes. */
  lemma RowsKeepTheirOrder(s: State, t: State, p: OrderId)
    requires RowsAgree(s) && RowsAgree(t) && PT.Later(s, t) && p in s.orders
    ensures p in t.orders && t.orders[p].(status := Pending, failureReason := None) == s.orders[p].(status := Pending, failureReason := None)
  {
    assert RowOk(s, p) && RowOk(t, p);
    assert PT.AttemptPersists(s.attempts[p], t.attempts[p]);
  }

  lemma StillRestsOn(s: State, t: State, o: OrderId, p: OrderId)
    requires RowsAgree(s) && RowsAgree(t) && PT.Later(s, t) && RestsOn(s, o, p)
    requires o in t.attempts && t.attempts[o].pc == s.attempts[o].pc
    ensures RestsOn(t, o, p)
  {
    RowsKeepTheirOrder(s, t, p);
    assert PT.AttemptPersists(s.attempts[p], t.attempts[p]) && PT.AttemptPersists(s.attempts[o], t.attempts[o]);
  }

  lemma ReplayRestsOn(s: State, o: OrderId, p: OrderId)
    requires Inv(s) && Enabled(s, Replay(o, Some(p)))
    ensures RestsOn(Do(s, Replay(o, Some(p))), o, p)
  {
    var r, row := s.attempts[o].req, s.orders[p];
    assert AttemptSound(s, o) && AttemptSound(s, p) && RowOk(s, p);
    I.RecognisedExactly(row, r);
    var b := s.attempts[p];
    if row.status == Failed { S.FailureRoundTrip(b.verdict.reason); }
    assert o != p;
  }

  lemma HearIsNoReplay(a: S.Attempt, heard: Reply)
    requires S.Sound(a) && S.MayHear(a, heard)
    ensures !AnsweredByReplay(S.Hear(a, heard))
  {
  }

  lemma LandIsNoReplay(a: S.Attempt, c: S.Call, r: Reply)
    requires S.Sound(a) && S.FlightOf(a, c) == S.Sent
    ensures !AnsweredByReplay(S.Land(a, c, r))
  {
  }

  /** Only a replay makes such an answer. */
  lemma OnlyReplayAnswers(s: State, st: Step, o: OrderId)
    requires AttemptsSound(s) && Enabled(s, st) && !(st.Replay? && st.order == o)
    requires o in Do(s, st).attempts && AnsweredByReplay(Do(s, st).attempts[o])
    ensures o in s.attempts && AnsweredByReplay(s.attempts[o]) && Do(s, st).attempts[o].pc == s.attempts[o].pc
  {
    assert AttemptSound(s, o);
    match st
    case Deliver(q, heard) => if q == o { HearIsNoReplay(s.attempts[o], heard); }
    case Execute(q, c, fault) =>
      if q == o { LandIsNoReplay(s.attempts[o], c, if fault == Clean then Effect(s, o, s.attempts[o], c).1 else Broken); }
    case _ =>
  }

  lemma StepGrounded(s: State, st: Step, o: OrderId)
    requires Inv(s) && Enabled(s, st) && Grounded(s, o)
    ensures Grounded(Do(s, st), o)
  {
    var t := Do(s, st);
    if o in t.attempts && AnsweredByReplay(t.attempts[o]) {
      if st.Replay? && st.order == o {
        ReplayRestsOn(s, o, st.source.value);
      } else {
        OnlyReplayAnswers(s, st, o);
        var p :| RestsOn(s, o, p);
        assert RowsAgree(t) by { StepInv(s, st); }
        assert PT.Later(s, t) by { PT.StepLater(s, st); }
        StillRestsOn(s, t, o, p);
      }
    }
  }

  lemma NextGrounded(s: State, t: State, o: OrderId)
    requires Inv(s) && Next(s, t) && Grounded(s, o)
    ensures Grounded(t, o)
  {
    var st :| Enabled(s, st) && t == Do(s, st);
    StepGrounded(s, st, o);
  }

  lemma {:induction false} RunGrounded(run: seq<State>, i: nat, o: OrderId)
    requires IsRun(run) && i < |run|
    ensures Grounded(run[i], o)
  {
    if i > 0 {
      RunGrounded(run, i - 1, o);
      RunInv(run, i - 1);
      assert Linked(run, i);
      NextGrounded(run[i - 1], run[i], o);
    }
  }

  // ---- every answer ----

  /** The answer concerns order `p`: the attempt's own, or the one that already had the request's key. */
  ghost predicate Concerns(s: State, o: OrderId, p: OrderId) {
    o in s.attempts && p in s.attempts && (p == o || (p in s.orders && I.SameKey(s.orders[p], s.attempts[o].req)))
  }

  /**
   * Whoever is told that an order was placed has that order: it is what they asked for, recorded as confirmed, paid,
   * and its seats are SOLD to it. This holds of first answers and of replayed ones.
   */
  lemma PlacedMeansSold(run: seq<State>, i: nat, o: OrderId, x: OrderId)
    requires IsRun(run) && i < |run| && o in run[i].attempts && run[i].attempts[o].pc == S.Done(S.OrderPlaced(x))
    ensures var s, r := run[i], run[i].attempts[o].req;
      && x in s.orders && s.orders[x].status == Confirmed && s.orders[x].user == r.user
      && s.orders[x].event == r.event && s.orders[x].amount == r.amount && multiset(s.orders[x].seats) == multiset(r.seats)
      && PT.Charged(s, x)
      && forall k :: k in r.seats ==> Sale(k, x) in s.sales && k in s.inv.seats && s.inv.seats[k].status == Sold
  {
    RunInv(run, i);
    RunGrounded(run, i, o);
    var s := run[i];
    assert AttemptSound(s, o) && RowOk(s, o);
    if s.attempts[o].insert == S.Answered(Refused) {
      var p :| RestsOn(s, o, p);
    }
    PT.ConfirmedOwnsSeats(s, x);
    PT.MoneyIsAccountedFor(run, i, x);
    forall k | k in s.attempts[o].req.seats ensures k in s.orders[x].seats {
      assert k in multiset(s.attempts[o].req.seats);
    }
  }

  /**
   * A refusal is passed on, never made up: told that seats are gone or that the card was declined, the customer has an
   * order that inventory or the payment service did refuse, and that order is not charged.
   */
  lemma RefusalsAreReal(run: seq<State>, i: nat, o: OrderId) returns (p: OrderId)
    requires IsRun(run) && i < |run| && o in run[i].attempts && run[i].attempts[o].pc.Done?
    requires run[i].attempts[o].pc.answer == S.ErrSeatsUnavailable || run[i].attempts[o].pc.answer == S.ErrPaymentDeclined
    ensures Concerns(run[i], o, p) && !PT.Charged(run[i], p)
    ensures run[i].attempts[o].pc.answer == S.ErrSeatsUnavailable ==> run[i].attempts[p].reserve == S.Answered(Refused)
    ensures run[i].attempts[o].pc.answer == S.ErrPaymentDeclined ==> run[i].attempts[p].charge == S.Answered(Refused)
  {
    RunInv(run, i);
    RunGrounded(run, i, o);
    var s := run[i];
    assert AttemptSound(s, o);
    p := o;
    if s.attempts[o].insert == S.Answered(Refused) {
      p :| RestsOn(s, o, p);
    }
    assert AttemptSound(s, p);
    assert PaymentsAgree(s);
    forall n | 0 <= n < |s.payments| && s.payments[n].order == p ensures !s.payments[n].succeeded { assert PaidBy(s, n); }
  }

  /** "Still in progress" and "key used for something else" are said only where another order does hold the key. */
  lemma KeyAnswersAreReal(run: seq<State>, i: nat, o: OrderId) returns (p: OrderId)
    requires IsRun(run) && i < |run| && o in run[i].attempts && run[i].attempts[o].pc.Done?
    requires run[i].attempts[o].pc.answer == S.ErrInProgress || run[i].attempts[o].pc.answer == S.ErrKeyReused
    ensures p != o && p in run[i].orders && I.SameKey(run[i].orders[p], run[i].attempts[o].req) && o !in run[i].orders
    ensures run[i].attempts[o].pc.answer == S.ErrInProgress ==> I.AsksFor(run[i].attempts[o].req, run[i].orders[p])
    ensures run[i].attempts[o].pc.answer == S.ErrKeyReused ==>
      !(I.AsksFor(run[i].attempts[o].req, run[i].orders[p]) && I.CanonicallySpelled(run[i].attempts[o].req))
  {
    RunInv(run, i);
    RunGrounded(run, i, o);
    assert AttemptSound(run[i], o) && RowOk(run[i], o);
    p :| RestsOn(run[i], o, p);
  }

  /** "Could not be finalized" is said only after the money was taken; the order stays PENDING from then on. */
  lemma UnfinishedIsPaid(run: seq<State>, i: nat, j: nat, o: OrderId)
    requires IsRun(run) && i <= j < |run| && o in run[i].attempts && run[i].attempts[o].pc == S.Done(S.ErrCouldNotFinalize)
    ensures PT.Charged(run[i], o) && o in run[j].orders && run[j].orders[o].status == Pending
    decreases j
  {
    RunInv(run, i);
    RunGrounded(run, i, o);
    var s := run[i];
    assert AttemptSound(s, o) && RowOk(s, o);
    assert forall p :: !RestsOn(s, o, p);
    DoneStays(run, i, j, o);
    RunInv(run, j);
    PT.NothingIsUndone(run, i, j);
    assert PT.AttemptPersists(s.attempts[o], run[j].attempts[o]);
    assert AttemptSound(run[j], o) && RowOk(run[j], o);
  }

  lemma NextKeepsAnswer(s: State, t: State, o: OrderId)
    requires Next(s, t) && o in s.attempts && s.attempts[o].pc.Done?
    ensures o in t.attempts && t.attempts[o].pc == s.attempts[o].pc
  {
    var st :| Enabled(s, st) && t == Do(s, st);
  }

  /** An answer is final. */
  lemma {:induction false} DoneStays(run: seq<State>, i: nat, j: nat, o: OrderId)
    requires IsRun(run) && i <= j < |run| && o in run[i].attempts && run[i].attempts[o].pc.Done?
    ensures o in run[j].attempts && run[j].attempts[o].pc == run[i].attempts[o].pc
    decreases j
  {
    if i < j {
      DoneStays(run, i, j - 1, o);
      assert Linked(run, j);
      NextKeepsAnswer(run[j - 1], run[j], o);
    }
  }
}
