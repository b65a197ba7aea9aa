/** order-svc's CreateOrder: one attempt at a purchase, as the calls it makes and what it does with each reply. */
module Saga {
  import opened Domain

  const MAX_AMOUNT_CENTS := 100_000_000

  /** What validateCreateOrder lets through. */
  ghost predicate ValidRequest(r: Request) {
    && 1 <= |r.seats| <= MAX_SEATS_PER_ORDER && Distinct(r.seats)
    && 0 < r.amount <= MAX_AMOUNT_CENTS
    && Spells(r.words, r.event, r.seats)
  }

  // ---- answers ----

  datatype Answer =
    | OrderPlaced(order: OrderId)
    | ErrSeatsUnavailable
    | ErrPaymentDeclined
    | ErrServiceUnavailable
    | ErrCouldNotFinalize
    | ErrInternal
    | ErrKeyReused
    | ErrInProgress

  /** What the customer is told when the order fails for this reason. */
  function FailureAnswer(r: FailureReason): Answer {
    match r
    case SeatsUnavailable => ErrSeatsUnavailable
    case PaymentDeclined => ErrPaymentDeclined
    case ServiceUnavailable => ErrServiceUnavailable
    case Unspecified => ErrServiceUnavailable
  }

  /** The word stored in orders.failure_reason. */
  function ReasonLabel(r: FailureReason): string {
    match r
    case SeatsUnavailable => "seats_unavailable"
    case PaymentDeclined => "payment_declined"
    case ServiceUnavailable => "service_unavailable"
    case Unspecified => "unspecified"
  }

  /** The answer rebuilt from the stored word. */
  function FailureFor(stored: Option<string>): Answer {
    match stored
    case None => ErrServiceUnavailable
    case Some(word) =>
      if word == "seats_unavailable" then ErrSeatsUnavailable
      else if word == "payment_declined" then ErrPaymentDeclined
      else ErrServiceUnavailable
  }

  /** Storing a failure and answering from the stored word gives the first attempt's answer back. */
  lemma FailureRoundTrip(r: FailureReason)
    ensures FailureFor(Some(ReasonLabel(r))) == FailureAnswer(r)
  {
    assert "seats_unavailable"[0] != "payment_declined"[0];
    assert "unspecified"[0] != "payment_declined"[0] && "unspecified"[0] != "seats_unavailable"[0];
    assert "service_unavailable"[1] != "seats_unavailable"[1] || |"service_unavailable"| != |"seats_unavailable"|;
  }

  // ---- one attempt ----

  datatype Call = Insert | Reserve | Charge | Confirm | Release | Record

  /** A call that was sent may be carried out at any later time, or never, whatever the caller does. */
  datatype Flight = Unsent | Sent | Answered(reply: Reply)

  datatype Verdict = Undecided | ToConfirmed | ToFailed(reason: FailureReason)

  datatype Pc =
    | Inserting | Replaying | Reserving | Charging | Confirming
    | Releasing(why: FailureReason) | Recording | Done(answer: Answer) | Crashed

  datatype Attempt = Attempt(id: OrderId, req: Request, pc: Pc, verdict: Verdict,
                             insert: Flight, reserve: Flight, charge: Flight,
                             confirm: Flight, release: Flight, record: Flight)

  function Begin(id: OrderId, req: Request): Attempt {
    Attempt(id, req, Inserting, Undecided, Sent, Unsent, Unsent, Unsent, Unsent, Unsent)
  }

  /** The call whose reply the attempt is waiting for. */
  function Awaited(a: Attempt): Option<Call> {
    match a.pc
    case Inserting => Some(Insert)
    case Reserving => Some(Reserve)
    case Charging => Some(Charge)
    case Confirming => Some(Confirm)
    case Releasing(_) => Some(Release)
    case Recording => Some(Record)
    case _ => None
  }

  function FlightOf(a: Attempt, c: Call): Flight {
    match c
    case Insert => a.insert
    case Reserve => a.reserve
    case Charge => a.charge
    case Confirm => a.confirm
    case Release => a.release
    case Record => a.record
  }

  function Land(a: Attempt, c: Call, r: Reply): Attempt {
    match c
    case Insert => a.(insert := Answered(r))
    case Reserve => a.(reserve := Answered(r))
    case Charge => a.(charge := Answered(r))
    case Confirm => a.(confirm := Answered(r))
    case Release => a.(release := Answered(r))
    case Record => a.(record := Answered(r))
  }

  /** fail(): the FAILED transition is issued. */
  function StartFailing(a: Attempt, why: FailureReason): Attempt {
    a.(pc := Recording, verdict := ToFailed(why), record := Sent)
  }

  /** What CreateOrder does when the awaited call comes back with `heard`. */
  function Hear(a: Attempt, heard: Reply): Attempt {
    match a.pc
    case Inserting =>
      (match heard
       case Accepted => a.(pc := Reserving, reserve := Sent)
       case Refused => a.(pc := Replaying)
       case Broken => a.(pc := Done(ErrInternal)))
    case Reserving =>
      (match heard
       case Accepted => a.(pc := Charging, charge := Sent)
       case Refused => StartFailing(a, SeatsUnavailable)
       case Broken => a.(pc := Releasing(ServiceUnavailable), release := Sent))
    case Charging =>
      (match heard
       case Accepted => a.(pc := Confirming, confirm := Sent)
       case Refused => a.(pc := Releasing(PaymentDeclined), release := Sent)
       case Broken => a.(pc := Releasing(ServiceUnavailable), release := Sent))
    case Confirming =>
      if heard == Accepted then a.(pc := Recording, verdict := ToConfirmed, record := Sent)
      else a.(pc := Done(ErrCouldNotFinalize))
    case Releasing(why) => StartFailing(a, why)
    case Recording =>
      (match a.verdict
       case ToFailed(why) => a.(pc := Done(FailureAnswer(why)))
       case _ => a.(pc := Done(if heard == Accepted then OrderPlaced(a.id) else ErrInternal)))
    case _ => a
  }

  // ---- what one attempt can never do ----

  /** The replies that justify announcing a failure for this reason. */
  predicate Evidence(a: Attempt, why: FailureReason) {
    && a.reserve != Unsent
    && why != Unspecified
    && (why == SeatsUnavailable ==> a.reserve == Answered(Refused))
    && (why == PaymentDeclined ==> a.charge == Answered(Refused))
  }

  /** Each call is sent only on the strength of the replies before it. */
  predicate Ordered(a: Attempt) {
    && a.insert != Unsent
    && (a.reserve != Unsent ==> a.insert == Answered(Accepted))
    && (a.charge != Unsent ==> a.reserve == Answered(Accepted))
    && (a.confirm != Unsent ==> a.charge == Answered(Accepted) && a.release == Unsent)
    && (a.release != Unsent ==> a.reserve != Unsent)
    && (a.verdict == Undecided <==> a.record == Unsent)
    && (a.verdict == ToConfirmed ==> a.confirm == Answered(Accepted))
    && (a.verdict.ToFailed? ==> a.confirm == Unsent && Evidence(a, a.verdict.reason))
  }

  predicate AtPc(a: Attempt) {
    match a.pc
    case Inserting => a.reserve == a.charge == a.confirm == a.release == a.record == Unsent
    case Replaying => a.insert == Answered(Refused)
    case Reserving => a.reserve != Unsent && a.charge == a.confirm == a.release == a.record == Unsent
    case Charging => a.charge != Unsent && a.confirm == a.release == a.record == Unsent
    case Confirming => a.confirm != Unsent && a.record == Unsent
    case Releasing(why) => a.release != Unsent && a.confirm == a.record == Unsent && Evidence(a, why)
    case Recording => a.record != Unsent
    case Done(ans) =>
      a.insert == Answered(Refused)
      || (ans == ErrInternal && (a.reserve == Unsent || a.verdict == ToConfirmed))
      || (ans == ErrCouldNotFinalize && a.confirm != Unsent && a.record == Unsent)
      || (ans == OrderPlaced(a.id) && a.verdict == ToConfirmed && a.record == Answered(Accepted))
      || (a.verdict.ToFailed? && ans == FailureAnswer(a.verdict.reason))
    case Crashed => true
  }

  /** Seats that may have been taken and are not to be sold are given back, and the failure recorded, before the answer. */
  predicate Compensated(a: Attempt) {
    (a.pc.Recording? || a.pc.Done?) && a.reserve != Unsent && a.confirm == Unsent ==>
      a.verdict.ToFailed? && a.record != Unsent && (a.reserve == Answered(Refused) || a.release != Unsent)
  }

  predicate Sound(a: Attempt) {
    Ordered(a) && AtPc(a) && Compensated(a)
  }

  /** A reply the caller may hear: the server's own, or a breakdown in its place. */
  predicate MayHear(a: Attempt, heard: Reply) {
    && Awaited(a).Some?
    && (heard == Broken || FlightOf(a, Awaited(a).value) == Answered(heard))
  }

  lemma HearKeepsSound(a: Attempt, heard: Reply)
    requires Sound(a) && MayHear(a, heard)
    ensures Sound(Hear(a, heard))
  {
  }

  lemma LandKeepsSound(a: Attempt, c: Call, r: Reply)
    requires Sound(a) && FlightOf(a, c) == Sent
    ensures Sound(Land(a, c, r))
  {
  }

  // ---- the code itself ----

  /** The attempt after making these calls in this order, if each is the one awaited at its turn. */
  function Walk(req: Request, id: OrderId, answers: Call -> Reply, calls: seq<Call>): Option<Attempt> {
    if calls == [] then Some(Begin(id, req))
    else
      var last := calls[|calls| - 1];
      match Walk(req, id, answers, calls[..|calls| - 1])
      case None => None
      case Some(a) => if Awaited(a) == Some(last) then Some(Hear(a, answers(last))) else None
  }

  /** One call of the straight-line code; `a` is the machine's state before and `b` after it. */
  method Invoke(req: Request, id: OrderId, answers: Call -> Reply, calls: seq<Call>, c: Call, ghost a: Attempt)
    returns (r: Reply, after: seq<Call>, ghost b: Attempt)
    requires Walk(req, id, answers, calls) == Some(a) && Awaited(a) == Some(c)
    ensures r == answers(c) && after == calls + [c]
    ensures b == Hear(a, r) && Walk(req, id, answers, after) == Some(b)
  {
    r, after := answers(c), calls + [c];
    b := Hear(a, r);
    assert after[..|calls|] == calls;
  }

  /** releaseSeats and fail, one after the other: neither's own failure is looked at. */
  method GiveUp(req: Request, id: OrderId, answers: Call -> Reply, calls: seq<Call>, why: FailureReason, ghost a: Attempt)
    returns (after: seq<Call>, recorded: Verdict, ghost b: Attempt)
    requires Walk(req, id, answers, calls) == Some(a) && a.pc == Releasing(why)
    ensures after == calls + [Release, Record] && recorded == ToFailed(why)
    ensures Walk(req, id, answers, after) == Some(b) && b.pc == Done(FailureAnswer(why)) && b.verdict == recorded
  {
    var ignored;
    ghost var m;
    ignored, after, m := Invoke(req, id, answers, calls, Release, a);
    recorded := ToFailed(why);
    ignored, after, b := Invoke(req, id, answers, after, Record, m);
  }

  /** The second half of CreateOrder: from the charge on. */
  method Pay(req: Request, id: OrderId, answers: Call -> Reply, before: seq<Call>, ghost start: Attempt)
    returns (answer: Answer, calls: seq<Call>, recorded: Verdict)
    requires Walk(req, id, answers, before) == Some(start) && start.pc == Charging && start.id == id && start.verdict == Undecided
    ensures match Walk(req, id, answers, calls)
            case None => false
            case Some(end) => end.pc == Done(answer) && end.verdict == recorded
    ensures match answers(Charge)
            case Refused =>
              calls == before + [Charge, Release, Record] && recorded == ToFailed(PaymentDeclined) && answer == ErrPaymentDeclined
            case Broken =>
              calls == before + [Charge, Release, Record] && recorded == ToFailed(ServiceUnavailable) && answer == ErrServiceUnavailable
            case Accepted =>
              if answers(Confirm) != Accepted then
                calls == before + [Charge, Confirm] && recorded == Undecided && answer == ErrCouldNotFinalize
              else
                && calls == before + [Charge, Confirm, Record] && recorded == ToConfirmed
                && answer == if answers(Record) == Accepted then OrderPlaced(id) else ErrInternal
  {
    ghost var a := start;
    var err;
    err, calls, a := Invoke(req, id, answers, before, Charge, a);
    if err != Accepted {
      if err == Refused {
        calls, recorded, a := GiveUp(req, id, answers, calls, PaymentDeclined, a);
        return ErrPaymentDeclined, calls, recorded;
      }
      calls, recorded, a := GiveUp(req, id, answers, calls, ServiceUnavailable, a);
      return ErrServiceUnavailable, calls, recorded;
    }
    err, calls, a := Invoke(req, id, answers, calls, Confirm, a);
    if err != Accepted {
      return ErrCouldNotFinalize, calls, Undecided;
    }
    recorded := ToConfirmed;
    err, calls, a := Invoke(req, id, answers, calls, Record, a);
    if err != Accepted {
      return ErrInternal, calls, recorded;
    }
    return OrderPlaced(id), calls, recorded;
  }

  /** The middle of CreateOrder: the reservation, and what follows it. */
  method TakeSeats(req: Request, id: OrderId, answers: Call -> Reply, before: seq<Call>, ghost start: Attempt)
    returns (answer: Answer, calls: seq<Call>, recorded: Verdict)
    requires Walk(req, id, answers, before) == Some(start) && start.pc == Reserving && start.id == id && start.verdict == Undecided
    ensures match Walk(req, id, answers, calls)
            case None => false
            case Some(end) => end.pc == Done(answer) && end.verdict == recorded
    ensures answers(Reserve) == Refused ==>
      calls == before + [Reserve, Record] && recorded == ToFailed(SeatsUnavailable) && answer == ErrSeatsUnavailable
    ensures answers(Reserve) == Broken ==>
      calls == before + [Reserve, Release, Record] && recorded == ToFailed(ServiceUnavailable) && answer == ErrServiceUnavailable
    ensures answers(Reserve) == Accepted ==>
      match answers(Charge)
      case Refused =>
        && calls == before + [Reserve, Charge, Release, Record]
        && recorded == ToFailed(PaymentDeclined) && answer == ErrPaymentDeclined
      case Broken =>
        && calls == before + [Reserve, Charge, Release, Record]
        && recorded == ToFailed(ServiceUnavailable) && answer == ErrServiceUnavailable
      case Accepted =>
        if answers(Confirm) != Accepted then
          calls == before + [Reserve, Charge, Confirm] && recorded == Undecided && answer == ErrCouldNotFinalize
        else
          && calls == before + [Reserve, Charge, Confirm, Record] && recorded == ToConfirmed
          && answer == if answers(Record) == Accepted then OrderPlaced(id) else ErrInternal
  {
    ghost var a := start;
    var err, ignored;
    err, calls, a := Invoke(req, id, answers, before, Reserve, a);
    if err != Accepted {
      if err == Refused {
        recorded := ToFailed(SeatsUnavailable);
        ignored, calls, a := Invoke(req, id, answers, calls, Record, a);
        return ErrSeatsUnavailable, calls, recorded;
      }
      calls, recorded, a := GiveUp(req, id, answers, calls, ServiceUnavailable, a);
      return ErrServiceUnavailable, calls, recorded;
    }
    answer, calls, recorded := Pay(req, id, answers, calls, a);
  }

  /**
   * CreateOrder, statement by statement; `answers` gives what each call returns to it and `replayed` what replay()
   * would say. `calls` are the calls it makes, in order, and `recorded` the verdict it asks transition to store.
   */
  method CreateOrder(req: Request, id: OrderId, answers: Call -> Reply, replayed: Answer)
    returns (answer: Answer, calls: seq<Call>, recorded: Verdict)
    ensures match Walk(req, id, answers, calls)
            case None => false
            case Some(end) =>
              (if end.pc == Replaying then answer == replayed else end.pc == Done(answer)) && end.verdict == recorded
    ensures answers(Insert) == Refused ==> calls == [Insert] && recorded == Undecided && answer == replayed
    ensures answers(Insert) == Broken ==> calls == [Insert] && recorded == Undecided && answer == ErrInternal
    ensures answers(Insert) == Accepted ==>
      match answers(Reserve)
      case Refused =>
        calls == [Insert, Reserve, Record] && recorded == ToFailed(SeatsUnavailable) && answer == ErrSeatsUnavailable
      case Broken =>
        calls == [Insert, Reserve, Release, Record] && recorded == ToFailed(ServiceUnavailable) && answer == ErrServiceUnavailable
      case Accepted =>
        match answers(Charge)
        case Refused =>
          && calls == [Insert, Reserve, Charge, Release, Record]
          && recorded == ToFailed(PaymentDeclined) && answer == ErrPaymentDeclined
        case Broken =>
          && calls == [Insert, Reserve, Charge, Release, Record]
          && recorded == ToFailed(ServiceUnavailable) && answer == ErrServiceUnavailable
        case Accepted =>
          if answers(Confirm) != Accepted then
            calls == [Insert, Reserve, Charge, Confirm] && recorded == Undecided && answer == ErrCouldNotFinalize
          else
            && calls == [Insert, Reserve, Charge, Confirm, Record] && recorded == ToConfirmed
            && answer == if answers(Record) == Accepted then OrderPlaced(id) else ErrInternal
  {
    ghost var a := Begin(id, req);
    calls := [];
    var err;
    err, calls, a := Invoke(req, id, answers, calls, Insert, a);
    if err != Accepted {
      return if err == Refused then replayed else ErrInternal, calls, Undecided;
    }
    answer, calls, recorded := TakeSeats(req, id, answers, calls, a);
  }
}
