/** The live map compared with the seat table: right exactly as long as reservations spell ids as the database does. */
module LiveTable {
  import opened Domain
  import opened SeatTable
  import opened Purchase
  import opened LiveMap
  import opened SeatLog
  import PI = PurchaseInvariant
  import PT = PurchaseTheorems
  import PA = PurchaseAlone
  import S = Saga
  import I = Idempotency

  /** What is published for an event's text: the entries of the seat log that carry it, in their own words. */
  ghost function Stream(log: seq<SeatEvent>, event: Text): seq<Update> {
    if log == [] then []
    else
      var front, last := Stream(log[..|log| - 1], event), log[|log| - 1];
      if last.words.event == event then front + [Update(last.words.seats, last.state)] else front
  }

  lemma {:induction false} StreamAppends(a: seq<SeatEvent>, b: seq<SeatEvent>, event: Text)
    ensures Stream(a + b, event) == Stream(a, event) + Stream(b, event)
  {
    if b == [] {
      assert a + b == a;
    } else {
      var front := b[..|b| - 1];
      StreamAppends(a, front, event);
      assert (a + b)[..|a + b| - 1] == a + front;
    }
  }

  /** The feed of a state's log, for the pages that ask for the event by its canonical text. */
  ghost function Feed(s: State, event: EventId): seq<Update> {
    Stream(s.inv.log, Canonical(event))
  }

  /** The list shows seats of this event, by the ids the database gives, as the table has them. */
  ghost predicate Shows(list: seq<SeatView>, t: Table, event: EventId) {
    forall i :: 0 <= i < |list| ==> ShowsSeat(list[i], t, event)
  }

  ghost predicate ShowsSeat(v: SeatView, t: Table, event: EventId) {
    v.id.Canonical? && v.id.id in t && t[v.id.id].event == event && v.status == t[v.id.id].status
  }

  /** The feed, read from the start, gives the status column. */
  ghost predicate TellsTable(s: State, event: EventId) {
    forall k :: k in s.inv.seats && s.inv.seats[k].event == event ==> Told(Feed(s, event), Canonical(k)) == s.inv.seats[k].status
  }

  // ---- plain reservations suffice ----

  lemma TextsName(ids: seq<SeatId>, k: SeatId)
    ensures Canonical(k) in Texts(ids) <==> k in ids
  {
    if k in ids {
      var i :| 0 <= i < |ids| && ids[i] == k;
      assert Texts(ids)[i] == Canonical(k);
    }
  }

  lemma {:induction false} PlainLogTells(log: seq<SeatEvent>, event: EventId, k: SeatId)
    requires PlainAbout(log, event) && forall i :: 0 <= i < |log| ==> Spelled(log[i])
    requires forall i :: 0 <= i < |log| && k in log[i].seats ==> log[i].event == event
    ensures Told(Stream(log, Canonical(event)), Canonical(k)) == StatusAfter(log, k)
  {
    if log != [] {
      var front, last := log[..|log| - 1], log[|log| - 1];
      PlainLogTells(front, event, k);
      assert Spelled(last);
      if last.event == event {
        assert PlainlySpelled(last);
        TextsName(last.seats, k);
        ToldOne(Stream(front, Canonical(event)), Update(last.words.seats, last.state), Canonical(k));
      }
    }
  }

  lemma PlainTellsTable(s: State, event: EventId)
    requires LogAgrees(s.inv) && AllAuthored(s) && ReservedPlainly(s, event)
    ensures TellsTable(s, event)
  {
    PlainReservationsPlainLog(s, event);
    forall k | k in s.inv.seats && s.inv.seats[k].event == event ensures Told(Feed(s, event), Canonical(k)) == s.inv.seats[k].status {
      PlainLogTells(s.inv.log, event, k);
    }
  }

  /** A request's words stay what they were: a plain state comes after plain states only. */
  lemma PlainBefore(run: seq<State>, i: nat, j: nat, event: EventId)
    requires IsRun(run) && i <= j < |run| && ReservedPlainly(run[j], event)
    ensures ReservedPlainly(run[i], event)
  {
    PT.NothingIsUndone(run, i, j);
    forall o | o in run[i].attempts && run[i].attempts[o].req.event == event && TookSeats(run[i], o)
      ensures I.CanonicallySpelled(run[i].attempts[o].req)
    {
      TookSeatsStays(run[i], run[j], o);
      assert PT.AttemptPersists(run[i].attempts[o], run[j].attempts[o]);
    }
  }

  lemma RunTellsTable(run: seq<State>, i: nat, j: nat, event: EventId)
    requires IsRun(run) && i <= j < |run| && ReservedPlainly(run[j], event)
    ensures TellsTable(run[i], event)
  {
    PlainBefore(run, i, j, event);
    PI.RunInv(run, i);
    RunAuthored(run, i);
    PlainTellsTable(run[i], event);
  }

  lemma FeedGrows(run: seq<State>, i: nat, j: nat, event: EventId)
    requires IsRun(run) && i <= j < |run|
    ensures Feed(run[i], event) <= Feed(run[j], event)
  {
    PT.NothingIsUndone(run, i, j);
    var added := run[j].inv.log[|run[i].inv.log|..];
    assert run[j].inv.log == run[i].inv.log + added;
    StreamAppends(run[i].inv.log, added, Canonical(event));
  }

  /**
   * In any run of the whole system: a map fetched in state i and pushed the event's updates up to state j, in any way
   * that settles, shows the seat table of state j, if reservations for the event were spelled plainly.
   */
  lemma BrowserAgreesWithTable(run: seq<State>, i: nat, j: nat, event: EventId, list: seq<SeatView>, positions: seq<nat>)
    requires IsRun(run) && i <= j < |run| && Shows(list, run[i].inv.seats, event) && ReservedPlainly(run[j], event)
    requires Settles(positions, |Feed(run[i], event)|, |Feed(run[j], event)|)
    ensures Shows(Pushed(list, Feed(run[j], event), positions), run[j].inv.seats, event)
  {
    var was, feed := Feed(run[i], event), Feed(run[j], event);
    FeedGrows(run, i, j, event);
    RunTellsTable(run, i, j, event);
    RunTellsTable(run, j, j, event);
    PT.NothingIsUndone(run, i, j);
    assert feed[..|was|] == was;
    forall x | 0 <= x < |list| ensures list[x].status == Told(was, list[x].id) { assert ShowsSeat(list[x], run[i].inv.seats, event); }
    LiveMapConverges(list, feed, |was|, positions);
    PushedIsFinal(list, feed, positions);
    var final := Pushed(list, feed, positions);
    forall x | 0 <= x < |final| ensures ShowsSeat(final[x], run[j].inv.seats, event) {
      assert ShowsSeat(list[x], run[i].inv.seats, event) && final[x].id == list[x].id;
    }
  }

  // ---- and are needed ----

  /** The request spells the event, or this seat, in another way than the database. */
  ghost predicate Unheard(r: Request, x: nat)
    requires x < |r.words.seats|
  {
    r.words.event.Variant? || r.words.seats[x].Variant?
  }

  /** No page hears that such a seat was taken: the feed does not name it. */
  lemma UnheardSeat(s: State, t: State, r: Request, x: nat)
    requires Reserves(s, t, r) && x < |r.words.seats| && Unheard(r, x)
    ensures var was, feed := Feed(s, r.event), Feed(t, r.event);
      && (feed == was || (|feed| == |was| + 1 && feed[..|was|] == was && Canonical(r.seats[x]) !in feed[|was|].seats))
      && Told(feed, Canonical(r.seats[x])) == Told(was, Canonical(r.seats[x]))
  {
    var was, feed, c := Feed(s, r.event), Feed(t, r.event), Canonical(r.seats[x]);
    assert (s.inv.log + [HoldEntry(r)])[..|s.inv.log|] == s.inv.log;
    if r.words.event.Canonical? {
      var u := Update(r.words.seats, Held);
      assert feed == was + [u];
      assert c !in u.seats by {
        forall y | 0 <= y < |r.words.seats| ensures r.words.seats[y] != c { assert r.words.seats[y].id == r.seats[y]; }
      }
      ToldOne(was, u, c);
    }
  }

  /** So a page that was right before the reservation is wrong after it. */
  lemma PageMissesIt(s: State, t: State, r: Request, x: nat) returns (list: seq<SeatView>, positions: seq<nat>)
    requires Reserves(s, t, r) && x < |r.words.seats| && Unheard(r, x)
    ensures Shows(list, s.inv.seats, r.event) && Settles(positions, |Feed(s, r.event)|, |Feed(t, r.event)|)
    ensures !Shows(Pushed(list, Feed(t, r.event), positions), t.inv.seats, r.event)
  {
    UnheardSeat(s, t, r, x);
    var was, feed := Feed(s, r.event), Feed(t, r.event);
    list := [SeatView(Canonical(r.seats[x]), "", Available)];
    positions := if feed == was then [] else [|was|];
    assert r.seats[x] in r.seats;
    PushedIsFinal(list, feed, positions);
    assert positions != [] ==> positions[1..] == [];
    assert Pushed(list, feed, positions)[0] == list[0];
    assert !ShowsSeat(list[0], t.inv.seats, r.event);
  }

  /** The reservation that was not spelled plainly, and the step that carried it out. */
  lemma FindsReservation(run: seq<State>, event: EventId) returns (k: nat, r: Request, x: nat)
    requires IsRun(run) && !ReservedPlainly(run[|run| - 1], event)
    ensures 0 < k < |run| && Reserves(run[k - 1], run[k], r) && r.event == event && x < |r.words.seats| && Unheard(r, x)
  {
    var n := FindsEntry(run[|run| - 1], event);
    k := WrittenAt(run, |run| - 1, n);
    assert run[k].inv.log[n] == run[|run| - 1].inv.log[n] by { PT.NothingIsUndone(run, k, |run| - 1); }
    assert PI.AttemptsSound(run[k - 1]) by { PI.RunInv(run, k - 1); }
    assert Linked(run, k);
    r := NewHeldEntry(run[k - 1], run[k], n);
    x := FindsSpelling(r);
  }

  /** A HELD entry about the event that is not spelled as the database does. */
  lemma FindsEntry(s: State, event: EventId) returns (n: nat)
    requires !ReservedPlainly(s, event)
    ensures n < |s.inv.log| && s.inv.log[n].state == Held && s.inv.log[n].event == event && !CanonicalWords(s.inv.log[n].words)
  {
    var o :| o in s.attempts && s.attempts[o].req.event == event && TookSeats(s, o) && !I.CanonicallySpelled(s.attempts[o].req);
    n :| 0 <= n < |s.inv.log| && s.inv.log[n] == HoldEntry(s.attempts[o].req);
  }

  ghost predicate CanonicalWords(w: Words) {
    w.event.Canonical? && forall i :: 0 <= i < |w.seats| ==> w.seats[i].Canonical?
  }

  lemma FindsSpelling(r: Request) returns (x: nat)
    requires S.ValidRequest(r) && !CanonicalWords(r.words)
    ensures x < |r.words.seats| && Unheard(r, x)
  {
    if r.words.event.Variant? { x := 0; } else { x :| x < |r.words.seats| && !r.words.seats[x].Canonical?; }
  }

  /** Every map of the event's seats that is right at one moment is right at any later one, after any delivery that settles. */
  ghost predicate MapsAgree(run: seq<State>, event: EventId) {
    forall i: nat, j: nat, list, positions |
      i <= j < |run| && Shows(list, run[i].inv.seats, event) && Settles(positions, |Feed(run[i], event)|, |Feed(run[j], event)|)
      :: Shows(Pushed(list, Feed(run[j], event), positions), run[j].inv.seats, event)
  }

  /** The exact rule: maps agree if and only if every reservation that took effect was spelled plainly. */
  lemma MapsAgreeExactly(run: seq<State>, event: EventId)
    requires IsRun(run)
    ensures MapsAgree(run, event) <==> ReservedPlainly(run[|run| - 1], event)
  {
    if ReservedPlainly(run[|run| - 1], event) {
      forall i: nat, j: nat, list, positions |
        i <= j < |run| && Shows(list, run[i].inv.seats, event) && Settles(positions, |Feed(run[i], event)|, |Feed(run[j], event)|)
        ensures Shows(Pushed(list, Feed(run[j], event), positions), run[j].inv.seats, event)
      {
        PlainBefore(run, j, |run| - 1, event);
        BrowserAgreesWithTable(run, i, j, event, list, positions);
      }
    } else {
      var k, r, x := FindsReservation(run, event);
      var list, positions := PageMissesIt(run[k - 1], run[k], r, x);
    }
  }

  /** And so for the log alone: it gives the status column in every state if and only if the same holds. */
  lemma FeedTellsTableExactly(run: seq<State>, event: EventId)
    requires IsRun(run)
    ensures (forall i: nat | i < |run| :: TellsTable(run[i], event)) <==> ReservedPlainly(run[|run| - 1], event)
  {
    if ReservedPlainly(run[|run| - 1], event) {
      forall i: nat | i < |run| ensures TellsTable(run[i], event) { RunTellsTable(run, i, |run| - 1, event); }
    } else {
      var k, r, x := FindsReservation(run, event);
      UnheardSeat(run[k - 1], run[k], r, x);
      assert r.seats[x] in r.seats;
      assert !TellsTable(run[k - 1], event) || !TellsTable(run[k], event);
    }
  }

  /** Replaying the whole feed over a list of free seats gives the seat table wherever the feed tells it. */
  lemma ReplayGivesTable(s: State, event: EventId, list: seq<SeatView>)
    requires TellsTable(s, event)
    requires forall x :: 0 <= x < |list| ==>
      && list[x].id.Canonical? && list[x].id.id in s.inv.seats && s.inv.seats[list[x].id.id].event == event
      && list[x].status == Available
    ensures Shows(Pushed(list, Feed(s, event), UpTo(|Feed(s, event)|)), s.inv.seats, event)
  {
    var feed := Feed(s, event);
    assert feed[..0] == [];
    CatchingUpSettles(UpTo(|feed|), 0, |feed|);
    LiveMapConverges(list, feed, 0, UpTo(|feed|));
    PushedIsFinal(list, feed, UpTo(|feed|));
    var final := Pushed(list, feed, UpTo(|feed|));
    forall x | 0 <= x < |final| ensures ShowsSeat(final[x], s.inv.seats, event) { assert final[x].id == list[x].id; }
  }

  // ---- the instance ----

  /** One order for seat 3 of event 2, the seat id typed in capitals. */
  const CAPITALS := Request(1, 2, [3], 500, "", Words(Canonical(2), [Variant(3, 0)]))

  lemma CapitalsAreAccepted()
    ensures S.ValidRequest(CAPITALS) && !I.CanonicallySpelled(CAPITALS)
  {
    assert CAPITALS.words.seats[0].Variant?;
  }

  lemma Opening() returns (run: seq<State>)
    ensures IsRun(run) && run[|run| - 1].inv == Inventory(map[3 := Seat(2, Available, None)], [])
    ensures run[|run| - 1].attempts == map[] && run[|run| - 1].orders == map[]
  {
    var shop := Do(INIT, CreateEvent(2, {3}));
    assert Next(INIT, shop) by { assert Enabled(INIT, CreateEvent(2, {3})); }
    assert NewSeats(2, {3}) == map[3 := Seat(2, Available, None)];
    assert shop.inv.seats == map[3 := Seat(2, Available, None)];
    assert IsRun([INIT]);
    PA.OneStepMore([INIT], shop);
    run := [INIT] + [shop];
  }

  lemma CapitalsReserve(inv: Inventory)
    requires inv == Inventory(map[3 := Seat(2, Available, None)], [])
    ensures var t := Reserve(inv, CAPITALS.event, CAPITALS.seats, 1, CAPITALS.words).0;
      t.seats == map[3 := Seat(2, Held, Some(1))] && t.log == [HoldEntry(CAPITALS)]
  {
    assert Ids([3]) == {3} by { assert [3][0] == 3; }
  }

  /** It is accepted, the seat is HELD, and no page hears of it. */
  lemma CapitalsGoUnheard() returns (run: seq<State>)
    ensures IsRun(run) && !MapsAgree(run, 2)
    ensures run[|run| - 1].inv.seats == map[3 := Seat(2, Held, Some(1))]
    ensures 1 in run[|run| - 1].attempts && run[|run| - 1].attempts[1].req == CAPITALS
  {
    CapitalsAreAccepted();
    var start := Opening();
    var shop := start[|start| - 1];
    CapitalsReserve(shop.inv);
    assert PA.Extends(start, start + [PA.Arrived(shop, 1, CAPITALS)], PA.Arrived(shop, 1, CAPITALS)) by { PA.ArriveMore(start, 1, CAPITALS); }
    run := PA.MoreRounds(start + [PA.Arrived(shop, 1, CAPITALS)], 1, 2);
    PA.TwoRounds(shop, 1, CAPITALS);
    assert TookSeats(run[|run| - 1], 1) by { assert run[|run| - 1].inv.log[0] == HoldEntry(CAPITALS); }
    MapsAgreeExactly(run, 2);
  }
}
