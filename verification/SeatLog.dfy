/** Where the entries of the seat log come from, and how they are spelled. */
module SeatLog {
  import opened Domain
  import opened SeatTable
  import opened Purchase
  import opened PurchaseInvariant
  import S = Saga
  import I = Idempotency
  import PT = PurchaseTheorems
  import H = Holds

  /** What a reservation for this request writes when it takes effect. */
  function HoldEntry(r: Request): SeatEvent {
    SeatEvent(r.event, r.seats, Held, r.words)
  }

  /** A reservation for the attempt's request took effect. */
  ghost predicate TookSeats(s: State, o: OrderId)
    requires o in s.attempts
  {
    HoldEntry(s.attempts[o].req) in s.inv.log
  }

  // ---- every entry has an author ----

  /** An earlier reservation used the same words about the same event. */
  ghost predicate HeldInTheseWords(s: State, e: SeatEvent) {
    exists h :: 0 <= h < |s.inv.log| && s.inv.log[h].state == Held && s.inv.log[h].words == e.words && s.inv.log[h].event == e.event
  }

  /** Reservations write an attempt's request; everything else is in database spelling, or in a reservation's words. */
  ghost predicate Authored(s: State, e: SeatEvent) {
    if e.state == Held then exists o :: o in s.attempts && e == HoldEntry(s.attempts[o].req)
    else PlainlySpelled(e) || HeldInTheseWords(s, e)
  }

  ghost predicate AllAuthored(s: State) {
    forall i :: 0 <= i < |s.inv.log| ==> Authored(s, s.inv.log[i])
  }

  /** A held seat's holder has its reservation in the log. */
  ghost predicate HoldLogged(s: State, k: SeatId) {
    k in s.inv.seats && s.inv.seats[k].heldBy.Some? ==>
      var o := s.inv.seats[k].heldBy.value; o in s.attempts && TookSeats(s, o)
  }

  ghost predicate HoldsLogged(s: State) {
    forall k :: HoldLogged(s, k)
  }

  /** Attempts keep their requests, and the log only grows. */
  ghost predicate Grown(s: State, t: State) {
    PT.AttemptsPersist(s, t) && s.inv.log <= t.inv.log
  }

  lemma AuthoredStays(s: State, t: State, e: SeatEvent)
    requires Grown(s, t) && Authored(s, e)
    ensures Authored(t, e)
  {
    if e.state == Held {
      var o :| o in s.attempts && e == HoldEntry(s.attempts[o].req);
      assert PT.AttemptPersists(s.attempts[o], t.attempts[o]);
      assert e == HoldEntry(t.attempts[o].req);
    } else if !PlainlySpelled(e) {
      var h :| 0 <= h < |s.inv.log| && s.inv.log[h].state == Held && s.inv.log[h].words == e.words && s.inv.log[h].event == e.event;
      assert t.inv.log[h] == s.inv.log[h];
    }
  }

  lemma TookSeatsStays(s: State, t: State, o: OrderId)
    requires Grown(s, t) && o in s.attempts && TookSeats(s, o)
    ensures o in t.attempts && TookSeats(t, o)
  {
    assert PT.AttemptPersists(s.attempts[o], t.attempts[o]);
    var h :| 0 <= h < |s.inv.log| && s.inv.log[h] == HoldEntry(s.attempts[o].req);
    assert t.inv.log[h] == s.inv.log[h];
  }

  /** Nothing new to account for but these entries, and no new holder but o. */
  lemma AuthoredAfter(s: State, t: State, added: seq<SeatEvent>)
    requires AllAuthored(s) && Grown(s, t) && t.inv.log == s.inv.log + added
    requires forall i :: 0 <= i < |added| ==> Authored(t, added[i])
    ensures AllAuthored(t)
  {
    forall i | 0 <= i < |t.inv.log| ensures Authored(t, t.inv.log[i]) {
      if i < |s.inv.log| { AuthoredStays(s, t, s.inv.log[i]); } else { assert t.inv.log[i] == added[i - |s.inv.log|]; }
    }
  }

  lemma LoggedAfter(s: State, t: State)
    requires HoldsLogged(s) && Grown(s, t) && H.NoNewHolder(s.inv.seats, t.inv.seats)
    ensures HoldsLogged(t)
  {
    forall k ensures HoldLogged(t, k) {
      assert HoldLogged(s, k);
      if k in t.inv.seats && t.inv.seats[k].heldBy.Some? { TookSeatsStays(s, t, t.inv.seats[k].heldBy.value); }
    }
  }

  // ---- every step keeps that ----

  lemma ReserveWrites(s: State, o: OrderId, fault: Fault)
    requires AttemptsSound(s) && AllAuthored(s) && HoldsLogged(s) && o in s.attempts && s.attempts[o].reserve == S.Sent
    requires fault != RolledBack && Reservable(s.inv.seats, s.attempts[o].req.event, s.attempts[o].req.seats)
    ensures var t := Executed(s, o, S.Reserve, fault); AllAuthored(t) && HoldsLogged(t)
  {
    var t, req := Executed(s, o, S.Reserve, fault), s.attempts[o].req;
    PT.ExecuteAttempts(s, o, S.Reserve, fault);
    assert t.attempts[o].req == req && t.inv.log == s.inv.log + [HoldEntry(req)];
    assert t.inv.log[|s.inv.log|] == HoldEntry(req);
    assert Authored(t, HoldEntry(req)) by { assert o in t.attempts; }
    AuthoredAfter(s, t, [HoldEntry(req)]);
    forall k ensures HoldLogged(t, k) {
      assert HoldLogged(s, k);
      if k in t.inv.seats && t.inv.seats[k].heldBy.Some? && t.inv.seats[k] == s.inv.seats[k] {
        TookSeatsStays(s, t, t.inv.seats[k].heldBy.value);
      }
    }
  }

  lemma MoveWrites(s: State, o: OrderId, to: SeatStatus)
    requires HoldsLogged(s) && o in s.attempts && s.attempts[o].req.seats != [] && to != Held
    requires HeldBy(s.inv.seats, s.attempts[o].req.event, s.attempts[o].req.seats, o)
    ensures var r := s.attempts[o].req; Authored(s, SeatEvent(r.event, r.seats, to, r.words))
  {
    var r := s.attempts[o].req;
    assert HoldLogged(s, r.seats[0]);
    var h :| 0 <= h < |s.inv.log| && s.inv.log[h] == HoldEntry(r);
    assert s.inv.log[h].state == Held;
  }

  lemma MovedWrites(s: State, o: OrderId, c: S.Call, fault: Fault)
    requires AttemptsSound(s) && AllAuthored(s) && HoldsLogged(s) && o in s.attempts && S.FlightOf(s.attempts[o], c) == S.Sent
    requires c == S.Confirm || c == S.Release
    ensures var t := Executed(s, o, c, fault); AllAuthored(t) && HoldsLogged(t)
  {
    var t, r := Executed(s, o, c, fault), s.attempts[o].req;
    assert AttemptSound(s, o);
    PT.ExecuteAttempts(s, o, c, fault);
    LoggedAfter(s, t);
    if fault == RolledBack || !HeldBy(s.inv.seats, r.event, r.seats, o) {
      AuthoredAfter(s, t, []);
    } else {
      var e := SeatEvent(r.event, r.seats, if c == S.Confirm then Sold else Available, r.words);
      MoveWrites(s, o, e.state);
      assert t.inv.log == s.inv.log + [e];
      AuthoredStays(s, t, e);
      AuthoredAfter(s, t, [e]);
    }
  }

  lemma ExecuteWrites(s: State, o: OrderId, c: S.Call, fault: Fault)
    requires AttemptsSound(s) && AllAuthored(s) && HoldsLogged(s) && o in s.attempts && S.FlightOf(s.attempts[o], c) == S.Sent
    ensures var t := Executed(s, o, c, fault); AllAuthored(t) && HoldsLogged(t)
  {
    var r := s.attempts[o].req;
    if c == S.Confirm || c == S.Release {
      MovedWrites(s, o, c, fault);
    } else if c == S.Reserve && fault != RolledBack && Reservable(s.inv.seats, r.event, r.seats) {
      ReserveWrites(s, o, fault);
    } else {
      PT.ExecuteAttempts(s, o, c, fault);
      LoggedAfter(s, Executed(s, o, c, fault));
      AuthoredAfter(s, Executed(s, o, c, fault), []);
    }
  }

  lemma StepWrites(s: State, st: Step)
    requires AttemptsSound(s) && AllAuthored(s) && HoldsLogged(s) && Enabled(s, st)
    ensures AllAuthored(Do(s, st)) && HoldsLogged(Do(s, st))
  {
    if st.Execute? {
      ExecuteWrites(s, st.order, st.call, st.fault);
    } else {
      PT.StepAttempts(s, st);
      LoggedAfter(s, Do(s, st));
      AuthoredAfter(s, Do(s, st), if st.SweepHolds? then st.groups else []);
    }
  }

  lemma NextWrites(s: State, t: State)
    requires AttemptsSound(s) && AllAuthored(s) && HoldsLogged(s) && Next(s, t)
    ensures AllAuthored(t) && HoldsLogged(t)
  {
    var st :| Enabled(s, st) && t == Do(s, st);
    StepWrites(s, st);
  }

  /** In every reachable state each log entry is a reservation's, in its request's words, or repeats one's words, or is plain. */
  lemma {:induction false} RunAuthored(run: seq<State>, i: nat)
    requires IsRun(run) && i < |run|
    ensures AllAuthored(run[i]) && HoldsLogged(run[i])
  {
    if i > 0 {
      RunAuthored(run, i - 1);
      RunInv(run, i - 1);
      assert Linked(run, i);
      NextWrites(run[i - 1], run[i]);
    }
  }

  // ---- plain reservations make a plain log ----

  /** Every reservation for this event that took effect spelled its ids as the database does. */
  ghost predicate ReservedPlainly(s: State, event: EventId) {
    forall o :: o in s.attempts && s.attempts[o].req.event == event && TookSeats(s, o) ==> I.CanonicallySpelled(s.attempts[o].req)
  }

  ghost predicate PlainAbout(log: seq<SeatEvent>, event: EventId) {
    forall i :: 0 <= i < |log| && log[i].event == event ==> PlainlySpelled(log[i])
  }

  lemma CanonicalIsPlain(e: SeatEvent)
    requires Spelled(e) && e.words.event.Canonical? && forall i :: 0 <= i < |e.words.seats| ==> e.words.seats[i].Canonical?
    ensures PlainlySpelled(e)
  {
    assert e.words.seats == Texts(e.seats);
  }

  lemma HeldIsPlain(s: State, event: EventId, h: nat)
    requires LogAgrees(s.inv) && AllAuthored(s) && ReservedPlainly(s, event)
    requires h < |s.inv.log| && s.inv.log[h].state == Held && s.inv.log[h].event == event
    ensures s.inv.log[h].words.event.Canonical?
    ensures forall i :: 0 <= i < |s.inv.log[h].words.seats| ==> s.inv.log[h].words.seats[i].Canonical?
  {
    assert Authored(s, s.inv.log[h]);
    var o :| o in s.attempts && s.inv.log[h] == HoldEntry(s.attempts[o].req);
    assert TookSeats(s, o);
  }

  lemma PlainReservationsPlainLog(s: State, event: EventId)
    requires LogAgrees(s.inv) && AllAuthored(s) && ReservedPlainly(s, event)
    ensures PlainAbout(s.inv.log, event)
  {
    forall i | 0 <= i < |s.inv.log| && s.inv.log[i].event == event ensures PlainlySpelled(s.inv.log[i]) {
      var e := s.inv.log[i];
      assert Authored(s, e) && Spelled(e);
      if e.state == Held {
        HeldIsPlain(s, event, i);
        CanonicalIsPlain(e);
      } else if !PlainlySpelled(e) {
        var h :| 0 <= h < |s.inv.log| && s.inv.log[h].state == Held && s.inv.log[h].words == e.words && s.inv.log[h].event == e.event;
        HeldIsPlain(s, event, h);
        CanonicalIsPlain(e);
      }
    }
  }

  // ---- the step that writes a reservation ----

  /** Only a reservation that takes effect adds a HELD entry: its own, when all its seats were free. */
  ghost predicate Reserves(s: State, t: State, r: Request) {
    && S.ValidRequest(r) && Reservable(s.inv.seats, r.event, r.seats)
    && t.inv.log == s.inv.log + [HoldEntry(r)] && t.inv.seats.Keys == s.inv.seats.Keys
    && forall k :: k in r.seats ==> k in t.inv.seats && t.inv.seats[k].event == r.event && t.inv.seats[k].status == Held
  }

  lemma ExecuteReserves(s: State, o: OrderId, fault: Fault)
    requires AttemptsSound(s) && o in s.attempts && s.attempts[o].reserve == S.Sent
    requires fault != RolledBack && Reservable(s.inv.seats, s.attempts[o].req.event, s.attempts[o].req.seats)
    ensures Reserves(s, Executed(s, o, S.Reserve, fault), s.attempts[o].req)
  {
    assert AttemptSound(s, o);
    var r, t := s.attempts[o].req, Executed(s, o, S.Reserve, fault);
    forall k | k in r.seats ensures k in t.inv.seats && t.inv.seats[k].event == r.event && t.inv.seats[k].status == Held {
      assert k in Ids(r.seats);
    }
  }

  lemma NewHeldEntry(s: State, t: State, n: nat) returns (r: Request)
    requires AttemptsSound(s) && Next(s, t) && |s.inv.log| <= n < |t.inv.log| && t.inv.log[n].state == Held
    ensures Reserves(s, t, r) && t.inv.log[n] == HoldEntry(r)
  {
    var st :| Enabled(s, st) && t == Do(s, st);
    assert st.Execute? && st.call == S.Reserve;
    r := s.attempts[st.order].req;
    ExecuteReserves(s, st.order, st.fault);
  }

  /** In any run, the entry at n was written by some step. */
  lemma WrittenAt(run: seq<State>, j: nat, n: nat) returns (k: nat)
    requires IsRun(run) && j < |run| && n < |run[j].inv.log|
    ensures 0 < k <= j && |run[k - 1].inv.log| <= n < |run[k].inv.log|
  {
    k := j;
    while |run[k - 1].inv.log| > n
      invariant 0 < k <= j && n < |run[k].inv.log|
      decreases k
    {
      k := k - 1;
    }
  }
}
