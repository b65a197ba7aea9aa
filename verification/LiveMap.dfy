/** The browser's seat map: a list kept current by pushed updates (web/src/lib/seats.ts). */
module LiveMap {
  import opened Domain

  /** A seat as the page has it; its id is the text the API gave. */
  datatype SeatView = SeatView(id: Text, title: string, status: SeatStatus)

  function Repaint(seat: SeatView, u: Update): SeatView {
    if seat.id in u.seats && seat.status != u.state then seat.(status := u.state) else seat
  }

  /** applyUpdate: an undefined list stays undefined; an id that is not on the list changes nothing. */
  function ApplyUpdate(seats: Option<seq<SeatView>>, u: Update): Option<seq<SeatView>> {
    match seats
    case None => None
    case Some(list) =>
      var next := seq(|list|, i requires 0 <= i < |list| => Repaint(list[i], u));
      if exists i :: 0 <= i < |list| && next[i] != list[i] then Some(next) else seats
  }

  /** The list names the same seats as before; exactly the update's seats take its state. */
  lemma ApplyUpdateRepaints(list: seq<SeatView>, u: Update)
    ensures ApplyUpdate(Some(list), u).Some?
    ensures var next := ApplyUpdate(Some(list), u).value;
      && |next| == |list|
      && forall i :: 0 <= i < |list| ==>
        next[i] == list[i].(status := if list[i].id in u.seats then u.state else list[i].status)
  {
  }

  // ---- what a feed of updates says ----

  /** The state a seat is in after the feed, starting free: the last update that names it decides. */
  ghost function Told(feed: seq<Update>, seat: Text): SeatStatus {
    if feed == [] then Available
    else if seat in feed[|feed| - 1].seats then feed[|feed| - 1].state
    else Told(feed[..|feed| - 1], seat)
  }

  lemma ToldOne(feed: seq<Update>, u: Update, seat: Text)
    ensures Told(feed + [u], seat) == if seat in u.seats then u.state else Told(feed, seat)
  {
    assert (feed + [u])[..|feed|] == feed;
  }

  // ---- delivery ----

  /** Pushing the updates at these positions, one after another, into the list. */
  ghost function Pushed(list: seq<SeatView>, feed: seq<Update>, positions: seq<nat>): seq<SeatView>
    requires Within(positions, |feed|)
    decreases |positions|
  {
    if positions == [] then list
    else
      ApplyUpdateRepaints(list, feed[positions[0]]);
      Pushed(ApplyUpdate(Some(list), feed[positions[0]]).value, feed, positions[1..])
  }

  ghost predicate ShowsAt(list: seq<SeatView>, feed: seq<Update>) {
    forall i :: 0 <= i < |list| ==> list[i].status == Told(feed, list[i].id)
  }

  ghost predicate Unnamed(feed: seq<Update>, from: nat, seat: Text) {
    forall q :: from <= q < |feed| ==> seat !in feed[q].seats
  }

  lemma {:induction false} ToldByPrefix(feed: seq<Update>, k: nat, seat: Text)
    requires k <= |feed| && Unnamed(feed, k, seat)
    ensures Told(feed[..k], seat) == Told(feed, seat)
    decreases |feed|
  {
    if k == |feed| {
      assert feed[..k] == feed;
    } else {
      var front := feed[..|feed| - 1];
      ToldByPrefix(front, k, seat);
      assert front[..k] == feed[..k];
    }
  }

  lemma LastWordStands(feed: seq<Update>, p: nat, seat: Text)
    requires p < |feed| && seat in feed[p].seats && Unnamed(feed, p + 1, seat)
    ensures Told(feed, seat) == feed[p].state
  {
    ToldByPrefix(feed, p + 1, seat);
    assert feed[..p + 1] == feed[..p] + [feed[p]];
    ToldOne(feed[..p], feed[p], seat);
  }

  // ---- which deliveries bring a map up to date ----

  ghost predicate Within(positions: seq<nat>, n: nat) {
    forall i :: 0 <= i < |positions| ==> positions[i] < n
  }

  /** Position q is delivered after the i-th delivery. */
  ghost predicate Follows(positions: seq<nat>, i: nat, q: nat) {
    exists j :: i < j < |positions| && positions[j] == q
  }

  /** Whatever is delivered, everything after it in the feed is delivered once more later. */
  ghost predicate Resends(positions: seq<nat>, n: nat) {
    forall i: nat, q: nat | i < |positions| && positions[i] < q < n :: Follows(positions, i, q)
  }

  /** Nothing since the snapshot is missing, and nothing delivered late or twice has the last word. */
  ghost predicate Settles(positions: seq<nat>, k: nat, n: nat) {
    Within(positions, n) && (forall q: nat | k <= q < n :: q in positions) && Resends(positions, n)
  }

  /** Every map that was right at position k is right at position n once these deliveries are pushed into it. */
  ghost predicate BringsUp(positions: seq<nat>, k: nat, n: nat)
    requires k <= n && Within(positions, n)
  {
    forall list, feed | |feed| == n && ShowsAt(list, feed[..k]) :: ShowsAt(Pushed(list, feed, positions), feed)
  }

  /** The status one seat is left with. */
  ghost function Final(status: SeatStatus, feed: seq<Update>, positions: seq<nat>, seat: Text): SeatStatus
    requires Within(positions, |feed|)
    decreases |positions|
  {
    if positions == [] then status
    else
      var e := feed[positions[0]];
      Final(if seat in e.seats then e.state else status, feed, positions[1..], seat)
  }

  lemma {:induction false} PushedIsFinal(list: seq<SeatView>, feed: seq<Update>, positions: seq<nat>)
    requires Within(positions, |feed|)
    ensures |Pushed(list, feed, positions)| == |list|
    ensures forall x :: 0 <= x < |list| ==>
      Pushed(list, feed, positions)[x] == list[x].(status := Final(list[x].status, feed, positions, list[x].id))
    decreases |positions|
  {
    if positions != [] {
      var u := feed[positions[0]];
      ApplyUpdateRepaints(list, u);
      PushedIsFinal(ApplyUpdate(Some(list), u).value, feed, positions[1..]);
    }
  }

  /** Some delivery names the seat. */
  ghost predicate Named(feed: seq<Update>, positions: seq<nat>, seat: Text)
    requires Within(positions, |feed|)
  {
    exists i :: 0 <= i < |positions| && seat in feed[positions[i]].seats
  }

  lemma RestResends(positions: seq<nat>, n: nat)
    requires positions != [] && Resends(positions, n)
    ensures Resends(positions[1..], n)
  {
    var rest := positions[1..];
    forall i: nat, q: nat | i < |rest| && rest[i] < q < n ensures Follows(rest, i, q) {
      assert Follows(positions, i + 1, q);
      var j :| i + 1 < j < |positions| && positions[j] == q;
      assert rest[j - 1] == q;
    }
  }

  /** After one delivery a seat is right, or a later delivery names it. */
  lemma RightOrNamed(status: SeatStatus, feed: seq<Update>, positions: seq<nat>, seat: Text)
    requires positions != [] && Within(positions, |feed|) && Resends(positions, |feed|)
    requires status == Told(feed, seat) || Named(feed, positions, seat)
    ensures var e := feed[positions[0]]; var next := if seat in e.seats then e.state else status;
      next == Told(feed, seat) || Named(feed, positions[1..], seat)
  {
    var p, rest := positions[0], positions[1..];
    if seat !in feed[p].seats {
      if i :| 0 <= i < |positions| && seat in feed[positions[i]].seats { assert rest[i - 1] == positions[i]; }
    } else if Unnamed(feed, p + 1, seat) {
      LastWordStands(feed, p, seat);
    } else {
      var q :| p + 1 <= q < |feed| && seat in feed[q].seats;
      assert Follows(positions, 0, q);
      var j :| 0 < j < |positions| && positions[j] == q;
      assert rest[j - 1] == q;
    }
  }

  lemma {:induction false} FinalIsRight(status: SeatStatus, feed: seq<Update>, positions: seq<nat>, seat: Text)
    requires Within(positions, |feed|) && Resends(positions, |feed|)
    requires status == Told(feed, seat) || Named(feed, positions, seat)
    ensures Final(status, feed, positions, seat) == Told(feed, seat)
    decreases |positions|
  {
    if positions != [] {
      var e := feed[positions[0]];
      RightOrNamed(status, feed, positions, seat);
      RestResends(positions, |feed|);
      FinalIsRight(if seat in e.seats then e.state else status, feed, positions[1..], seat);
    }
  }

  /** A snapshot taken at position k, brought up by any delivery that settles, shows the table at the end. */
  lemma LiveMapConverges(list: seq<SeatView>, feed: seq<Update>, k: nat, positions: seq<nat>)
    requires k <= |feed| && ShowsAt(list, feed[..k]) && Settles(positions, k, |feed|)
    ensures ShowsAt(Pushed(list, feed, positions), feed)
  {
    PushedIsFinal(list, feed, positions);
    forall x | 0 <= x < |list| ensures Final(list[x].status, feed, positions, list[x].id) == Told(feed, list[x].id) {
      var seat := list[x].id;
      if Unnamed(feed, k, seat) {
        ToldByPrefix(feed, k, seat);
      } else {
        var q :| k <= q < |feed| && seat in feed[q].seats;
        assert q in positions;
      }
      FinalIsRight(list[x].status, feed, positions, seat);
    }
  }

  // ---- and no others do ----

  /** A feed of n updates in which only p and q say anything, both about seat 1: HELD, then SOLD. */
  ghost function TwoWords(n: nat, p: nat, q: nat): (feed: seq<Update>)
    ensures |feed| == n
    ensures forall x :: 0 <= x < n ==>
      feed[x] == Update(if x == p || x == q then [Canonical(1)] else [], if x == q then Sold else Held)
  {
    seq(n, (x: nat) => Update(if x == p || x == q then [Canonical(1)] else [], if x == q then Sold else Held))
  }

  /** If q is not delivered at all, or not after some p before it, the seat is not left SOLD. */
  lemma {:induction false} EndsUnsold(status: SeatStatus, positions: seq<nat>, n: nat, p: nat, q: nat, i: nat)
    requires Within(positions, n) && p != q && i <= |positions|
    requires if i == |positions| then status != Sold && q !in positions else positions[i] == p && !Follows(positions, i, q)
    ensures Final(status, TwoWords(n, p, q), positions, Canonical(1)) != Sold
    decreases |positions|
  {
    if positions != [] {
      var feed, rest := TwoWords(n, p, q), positions[1..];
      var next := if Canonical(1) in feed[positions[0]].seats then feed[positions[0]].state else status;
      assert forall j :: 0 <= j < |rest| ==> rest[j] == positions[j + 1];
      if i == |positions| {
        assert positions[0] in positions && forall x :: x in rest ==> x in positions;
        EndsUnsold(next, rest, n, p, q, |rest|);
      } else if i == 0 {
        assert forall j :: 0 <= j < |rest| ==> rest[j] != q;
        EndsUnsold(next, rest, n, p, q, |rest|);
      } else {
        if j :| i - 1 < j < |rest| && rest[j] == q { assert Follows(positions, i, q); }
        EndsUnsold(next, rest, n, p, q, i - 1);
      }
    }
  }

  lemma {:induction false} UnsoldBefore(n: nat, p: nat, q: nat, k: nat)
    requires k <= n && k <= q
    ensures Told(TwoWords(n, p, q)[..k], Canonical(1)) != Sold
    decreases k
  {
    if k > 0 {
      UnsoldBefore(n, p, q, k - 1);
      assert TwoWords(n, p, q)[..k][..k - 1] == TwoWords(n, p, q)[..k - 1];
    }
  }

  /** The map of seat 1 alone, right at k and wrong at n. */
  lemma MapEndsUnsold(positions: seq<nat>, k: nat, n: nat, p: nat, q: nat, i: nat)
    requires k <= n && Within(positions, n) && q < n && (p < q || p == n) && i <= |positions|
    requires if i == |positions| then k <= q && q !in positions else positions[i] == p && !Follows(positions, i, q)
    ensures !BringsUp(positions, k, n)
  {
    var feed := TwoWords(n, p, q);
    var list := [SeatView(Canonical(1), "", Told(feed[..k], Canonical(1)))];
    if k <= q { UnsoldBefore(n, p, q, k); }
    EndsUnsold(list[0].status, positions, n, p, q, i);
    PushedIsFinal(list, feed, positions);
    LastWordStands(feed, q, Canonical(1));
    assert ShowsAt(list, feed[..k]);
    assert Pushed(list, feed, positions)[0].status != Told(feed, Canonical(1));
  }

  /**
   * The exact rule: deliveries bring every map up to date if and only if they settle. Repeats, overlaps and
   * skipping ahead are harmless as long as what was skipped, and all after it, comes again.
   */
  lemma SettlesExactly(positions: seq<nat>, k: nat, n: nat)
    requires k <= n && Within(positions, n)
    ensures BringsUp(positions, k, n) <==> Settles(positions, k, n)
  {
    if Settles(positions, k, n) {
      forall list, feed | |feed| == n && ShowsAt(list, feed[..k]) ensures ShowsAt(Pushed(list, feed, positions), feed) {
        LiveMapConverges(list, feed, k, positions);
      }
    } else if q: nat :| k <= q < n && q !in positions {
      MapEndsUnsold(positions, k, n, n, q, |positions|);
    } else {
      var i: nat, q: nat :| i < |positions| && positions[i] < q < n && !Follows(positions, i, q);
      MapEndsUnsold(positions, k, n, positions[i], q, i);
    }
  }

  /** In order from a point not after the snapshot, falling back at will but never skipping ahead. */
  ghost predicate CatchesUp(positions: seq<nat>, k: nat, n: nat) {
    if positions == [] then k == n
    else
      && positions[0] <= k && positions[|positions| - 1] == n - 1 && Within(positions, n)
      && (forall i :: 0 < i < |positions| ==> positions[i] <= positions[i - 1] + 1)
  }

  /** On the way from one position to a later one every position between them is passed. */
  lemma {:induction false} Passes(positions: seq<nat>, i: nat, n: nat, q: nat)
    requires i < |positions| && positions[|positions| - 1] == n - 1 && positions[i] < q < n
    requires forall x :: 0 < x < |positions| ==> positions[x] <= positions[x - 1] + 1
    ensures Follows(positions, i, q)
    decreases |positions| - i
  {
    if positions[i + 1] != q {
      Passes(positions, i + 1, n, q);
      var j :| i + 1 < j < |positions| && positions[j] == q;
    }
  }

  /** The relay's usual deliveries settle. */
  lemma CatchingUpSettles(positions: seq<nat>, k: nat, n: nat)
    requires CatchesUp(positions, k, n)
    ensures Settles(positions, k, n)
  {
    forall i: nat, q: nat | i < |positions| && positions[i] < q < n ensures Follows(positions, i, q) {
      Passes(positions, i, n, q);
    }
    forall q: nat | k <= q < n ensures q in positions {
      if positions[0] != q { assert Follows(positions, 0, q); }
    }
  }

  /** A skip that is made good later settles too. */
  lemma SkippedThenResent()
    ensures Settles([1, 0, 1], 0, 2) && !CatchesUp([1, 0, 1], 0, 2)
  {
    var positions: seq<nat> := [1, 0, 1];
    assert positions[0] == 1 && positions[1] == 0 && positions[2] == 1;
    assert Follows(positions, 1, 1);
    assert 0 in positions && 1 in positions;
  }

  function UpTo(n: nat): seq<nat> {
    seq(n, q => q)
  }

  /** An instance the rule shuts out: with the last two updates swapped the map ends wrong. */
  lemma SwappedUpdatesMislead()
    ensures !BringsUp([1, 0], 0, 2)
  {
    var positions: seq<nat> := [1, 0];
    assert positions[1] == 0 && !Follows(positions, 1, 1);
    SettlesExactly(positions, 0, 2);
  }
}
