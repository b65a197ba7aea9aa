/** From the seat table through the hub to the screen: what a subscribed browser ends up showing. */
module LiveFeed {
  import opened Domain
  import opened Purchase
  import opened LiveMap
  import opened SeatTable
  import opened SeatLog
  import opened LiveTable
  import H = Hub

  /** What the hub is fed for one event's text: the updates at these positions of its stream. */
  ghost function Fed(feed: seq<Update>, positions: seq<nat>): seq<Update>
    requires Within(positions, |feed|)
  {
    seq(|positions|, i requires 0 <= i < |positions| => feed[positions[i]])
  }

  /** The page applies what it received, one update after another. */
  ghost function Applied(list: seq<SeatView>, us: seq<Update>): seq<SeatView>
    decreases |us|
  {
    if us == [] then list
    else
      ApplyUpdateRepaints(list, us[0]);
      Applied(ApplyUpdate(Some(list), us[0]).value, us[1..])
  }

  lemma {:induction false} AppliedIsPushed(list: seq<SeatView>, feed: seq<Update>, positions: seq<nat>)
    requires Within(positions, |feed|)
    ensures Applied(list, Fed(feed, positions)) == Pushed(list, feed, positions)
    decreases |positions|
  {
    if positions != [] {
      var us := Fed(feed, positions);
      ApplyUpdateRepaints(list, us[0]);
      AppliedIsPushed(ApplyUpdate(Some(list), us[0]).value, feed, positions[1..]);
      assert us[1..] == Fed(feed, positions[1..]);
    }
  }

  lemma {:induction false} ForAppends(a: H.Published, b: H.Published, event: Text)
    ensures H.For(a + b, event) == H.For(a, event) + H.For(b, event)
    decreases |b|
  {
    if b == [] {
      assert a + b == a;
    } else {
      var front, last := b[..|b| - 1], b[|b| - 1];
      ForAppends(a, front, event);
      assert a + b == (a + front) + [last] && b == front + [last];
      H.ForOne(a + front, last.0, last.1, event);
      H.ForOne(front, last.0, last.1, event);
    }
  }

  /** The tail of a feed that settles still does, for a snapshot that has everything the skipped part delivered. */
  lemma TailSettles(positions: seq<nat>, m: nat, start: nat, k: nat, n: nat)
    requires m <= |positions| && start <= k && Settles(positions, start, n)
    requires forall x :: 0 <= x < m ==> positions[x] < k
    ensures Settles(positions[m..], k, n)
  {
    var tail := positions[m..];
    forall i: nat, q: nat | i < |tail| && tail[i] < q < n ensures Follows(tail, i, q) {
      assert Follows(positions, m + i, q);
      var j :| m + i < j < |positions| && positions[j] == q;
      assert tail[j - m] == q;
    }
    forall q: nat | k <= q < n ensures q in tail {
      assert q in positions;
      var j :| 0 <= j < |positions| && positions[j] == q;
      assert tail[j - m] == q;
    }
  }

  /** How many of the event's updates were published before the subscription began. */
  ghost function Missed(published: H.Published, s: H.Subscription): nat
    requires H.Fits(published, s)
  {
    |H.For(published[..s.since], s.event)|
  }

  /** A subscription that is still open, with its channel drained, has received the feed from where it began. */
  lemma ReceivedIsTail(published: H.Published, s: H.Subscription, feed: seq<Update>, positions: seq<nat>)
    requires H.Fits(published, s) && H.InOrder(published, s) && s.open && s.buffer == []
    requires Within(positions, |feed|) && H.For(published, s.event) == Fed(feed, positions)
    ensures Missed(published, s) <= |positions| && s.received == Fed(feed, positions[Missed(published, s)..])
  {
    var m := Missed(published, s);
    assert published == published[..s.since] + published[s.since..];
    ForAppends(published[..s.since], published[s.since..], s.event);
    assert s.received == H.For(published, s.event)[m..] by {
      assert s.received + [] == s.received;
      assert H.For(published, s.event)[m..] == H.For(published[s.since..], s.event);
    }
  }

  /**
   * A browser subscribes by the event's canonical text, then fetches the map (in state i), and is still subscribed with
   * nothing left in its channel. If what the hub was fed for the event since then settles on state j, and reservations
   * were spelled plainly, the page shows the seat table of state j.
   */
  lemma SubscribedBrowserAgrees(run: seq<State>, i: nat, j: nat, event: EventId, list: seq<SeatView>,
                                published: H.Published, s: H.Subscription, positions: seq<nat>)
    requires IsRun(run) && i <= j < |run| && Shows(list, run[i].inv.seats, event) && ReservedPlainly(run[j], event)
    requires H.Fits(published, s) && H.InOrder(published, s) && s.open && s.buffer == [] && s.event == Canonical(event)
    requires Within(positions, |Feed(run[j], event)|) && H.For(published, s.event) == Fed(Feed(run[j], event), positions)
    requires Missed(published, s) <= |positions| ==>
      Settles(positions[Missed(published, s)..], |Feed(run[i], event)|, |Feed(run[j], event)|)
    ensures Shows(Applied(list, s.received), run[j].inv.seats, event)
  {
    var feed, m := Feed(run[j], event), Missed(published, s);
    ReceivedIsTail(published, s, feed, positions);
    BrowserAgreesWithTable(run, i, j, event, list, positions[m..]);
    AppliedIsPushed(list, feed, positions[m..]);
  }

  /** In particular if the whole feed settles, and the map already had all that was published before it subscribed. */
  lemma WholeFeedSuffices(run: seq<State>, i: nat, j: nat, event: EventId, list: seq<SeatView>,
                          published: H.Published, s: H.Subscription, positions: seq<nat>, start: nat)
    requires IsRun(run) && i <= j < |run| && Shows(list, run[i].inv.seats, event) && ReservedPlainly(run[j], event)
    requires H.Fits(published, s) && H.InOrder(published, s) && s.open && s.buffer == [] && s.event == Canonical(event)
    requires start <= |Feed(run[i], event)| && Settles(positions, start, |Feed(run[j], event)|)
    requires H.For(published, s.event) == Fed(Feed(run[j], event), positions)
    requires forall x :: 0 <= x < Missed(published, s) && x < |positions| ==> positions[x] < |Feed(run[i], event)|
    ensures Shows(Applied(list, s.received), run[j].inv.seats, event)
  {
    var feed, m := Feed(run[j], event), Missed(published, s);
    ReceivedIsTail(published, s, feed, positions);
    TailSettles(positions, m, start, |Feed(run[i], event)|, |feed|);
    SubscribedBrowserAgrees(run, i, j, event, list, published, s, positions);
  }

  /** A page that asks for the event in another spelling hears nothing at all of plainly spelled changes. */
  lemma {:induction false} VariantPageHearsNothing(log: seq<SeatEvent>, w: Text)
    requires w.Variant? && PlainAbout(log, w.id) && forall i :: 0 <= i < |log| ==> Spelled(log[i])
    ensures Stream(log, w) == []
  {
    if log != [] {
      var front, last := log[..|log| - 1], log[|log| - 1];
      assert Spelled(last);
      VariantPageHearsNothing(front, w);
    }
  }
}
