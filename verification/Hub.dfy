/** realtime-svc: subscriptions, their channels, and who is sent what (hub.go). */
module Hub {
  import opened Domain
  import opened Sums

  const SUBSCRIBER_BUFFER := 64

  type SubId = nat

  /**
   * A subscription and its channel. `since` and `received` are history: how many updates the hub had
   * published when it subscribed, and what the browser has taken out of the channel.
   */
  datatype Subscription = Subscription(event: Text, since: nat, buffer: seq<Update>, open: bool, received: seq<Update>)

  type Index = map<Text, set<SubId>>
  type Subscriptions = map<SubId, Subscription>
  type Published = seq<(Text, Update)>

  /** Everything published for one event, in order. */
  ghost function For(published: Published, event: Text): seq<Update> {
    if published == [] then []
    else
      var front := For(published[..|published| - 1], event);
      if published[|published| - 1].0 == event then front + [published[|published| - 1].1] else front
  }

  /** What was published to a subscription's event since it subscribed. */
  ghost function Due(published: Published, s: Subscription): seq<Update> {
    if s.since <= |published| then For(published[s.since..], s.event) else []
  }

  ghost function Got(s: Subscription): seq<Update> {
    s.received + s.buffer
  }

  // ---- the invariant ----

  ghost function OpenIds(all: Subscriptions): set<SubId> {
    set s | s in all && all[s].open
  }

  /** A subscription is listed, under its own event, exactly while its channel is open. */
  ghost predicate Indexes(subs: Index, all: Subscriptions) {
    (forall e, s :: Listed(subs, all, e, s)) && (forall e :: e in subs ==> subs[e] != {})
  }

  ghost predicate Listed(subs: Index, all: Subscriptions, e: Text, s: SubId) {
    (e in subs && s in subs[e]) <==> (s in all && all[s].open && all[s].event == e)
  }

  /** The set the code ranges over for an event. */
  function Watching(subs: Index, e: Text): set<SubId> {
    if e in subs then subs[e] else {}
  }

  lemma WatchingAre(subs: Index, all: Subscriptions, e: Text)
    requires Indexes(subs, all)
    ensures forall s :: s in Watching(subs, e) <==> s in all && all[s].open && all[s].event == e
  {
    forall s ensures s in Watching(subs, e) <==> s in all && all[s].open && all[s].event == e { assert Listed(subs, all, e, s); }
  }

  ghost predicate Fits(published: Published, s: Subscription) {
    s.since <= |published| && |s.buffer| <= SUBSCRIBER_BUFFER
  }

  /** What a browser got is a prefix of what was published to its event since, and all of it while it is subscribed. */
  ghost predicate InOrder(published: Published, s: Subscription) {
    Got(s) <= Due(published, s) && (s.open ==> Got(s) == Due(published, s))
  }

  ghost predicate Good(published: Published, s: Subscription) {
    Fits(published, s) && InOrder(published, s)
  }

  ghost predicate AllInOrder(published: Published, all: Subscriptions) {
    forall s :: s in all ==> Good(published, all[s])
  }

  ghost predicate Counted(count: int, max: int, all: Subscriptions) {
    count == |OpenIds(all)| && (count <= max || count == 0)
  }

  ghost predicate Structured(subs: Index, count: int, max: int, all: Subscriptions, next: SubId) {
    Indexes(subs, all) && Counted(count, max, all) && forall s :: s in all ==> s < next
  }

  // ---- small steps ----

  lemma ForOne(published: Published, e: Text, u: Update, event: Text)
    ensures For(published + [(e, u)], event) == if e == event then For(published, event) + [u] else For(published, event)
  {
    assert (published + [(e, u)])[..|published|] == published;
  }

  lemma DueOne(published: Published, e: Text, u: Update, s: Subscription)
    requires s.since <= |published|
    ensures Due(published + [(e, u)], s) == if e == s.event then Due(published, s) + [u] else Due(published, s)
  {
    assert (published + [(e, u)])[s.since..] == published[s.since..] + [(e, u)];
    ForOne(published[s.since..], e, u, s.event);
  }

  /** The index after a subscription is taken off it. */
  function Without(subs: Index, e: Text, s: SubId): Index
    requires e in subs
  {
    var rest := subs[e] - {s};
    if rest == {} then subs - {e} else subs[e := rest]
  }

  lemma RemoveIndexes(subs: Index, all: Subscriptions, s: SubId)
    requires Indexes(subs, all) && s in all && all[s].open
    ensures all[s].event in subs
    ensures Indexes(Without(subs, all[s].event, s), all[s := all[s].(open := false)])
  {
    var e := all[s].event;
    assert Listed(subs, all, e, s);
    var after, now := Without(subs, e, s), all[s := all[s].(open := false)];
    forall f, t ensures Listed(after, now, f, t) {
      assert Listed(subs, all, f, t);
      if f == e && t != s && t in Watching(subs, e) { assert t in subs[e] - {s}; }
    }
  }

  lemma RemoveCount(count: int, max: int, all: Subscriptions, s: SubId)
    requires Counted(count, max, all) && s in all && all[s].open
    ensures Counted(count - 1, max, all[s := all[s].(open := false)])
  {
    assert OpenIds(all[s := all[s].(open := false)]) == OpenIds(all) - {s};
  }

  lemma AddIndexes(subs: Index, all: Subscriptions, s: SubId, e: Text, since: nat)
    requires Indexes(subs, all) && s !in all
    ensures Indexes(subs[e := Watching(subs, e) + {s}], all[s := Subscription(e, since, [], true, [])])
  {
    var after, now := subs[e := Watching(subs, e) + {s}], all[s := Subscription(e, since, [], true, [])];
    forall f, t ensures Listed(after, now, f, t) { assert Listed(subs, all, f, t); }
  }

  lemma AddCount(count: int, max: int, all: Subscriptions, s: SubId, e: Text, since: nat)
    requires Counted(count, max, all) && s !in all && count < max
    ensures Counted(count + 1, max, all[s := Subscription(e, since, [], true, [])])
  {
    assert OpenIds(all[s := Subscription(e, since, [], true, [])]) == OpenIds(all) + {s};
  }

  /** A new subscription fits in. */
  lemma Added(published: Published, subs: Index, count: int, max: int, all: Subscriptions, next: SubId, e: Text)
    requires Structured(subs, count, max, all, next) && AllInOrder(published, all) && count < max
    ensures var more := all[next := Subscription(e, |published|, [], true, [])];
      && Structured(subs[e := Watching(subs, e) + {next}], count + 1, max, more, next + 1)
      && AllInOrder(published, more) && next !in all
  {
    AddIndexes(subs, all, next, e, |published|);
    AddCount(count, max, all, next, e, |published|);
    NewIsGood(published, e);
    SetInOrder(published, all, next, Subscription(e, |published|, [], true, []));
  }

  /** Taking an update out of a channel disturbs nothing. */
  lemma Taken(published: Published, subs: Index, count: int, max: int, all: Subscriptions, next: SubId, s: SubId, t: Subscription)
    requires Structured(subs, count, max, all, next) && AllInOrder(published, all) && s in all && all[s].buffer != []
    requires t == all[s].(buffer := all[s].buffer[1..], received := all[s].received + [all[s].buffer[0]])
    ensures Structured(subs, count, max, all[s := t], next) && AllInOrder(published, all[s := t]) && Got(t) == Got(all[s])
  {
    TakenIsGood(published, all[s], t);
    SetInOrder(published, all, s, t);
    SendStructure(subs, count, max, all, s, t);
  }

  // ---- the hub ----

  class Hub {
    var subs: Index
    var count: int
    const max: int
    var closed: bool
    /** The subscriptions handed out so far, open or not; the next one gets an identity of its own. */
    var all: Subscriptions
    var next: SubId
    /** History: everything published. */
    var published: Published

    /** What remove relies on and keeps, also in the middle of Publish and Close. */
    ghost predicate Consistent()
      reads this
    {
      Structured(subs, count, max, all, next)
    }

    ghost predicate Valid()
      reads this
    {
      Consistent() && AllInOrder(published, all) && (closed ==> subs == map[])
    }

    constructor (max: int)
      ensures Valid() && this.max == max && subs == map[] && count == 0 && all == map[] && published == [] && !closed
    {
      this.max, subs, count, closed := max, map[], 0, false;
      all, next, published := map[], 0, [];
    }

    /** Subscribe: refused when the hub is closed or full. */
    method Subscribe(event: Text) returns (r: Option<SubId>)
      requires Valid()
      modifies this`subs, this`count, this`all, this`next
      ensures Valid()
      ensures r == None <==> old(closed || count >= max)
      ensures r == None ==> subs == old(subs) && count == old(count) && all == old(all)
      ensures r != None ==> r.value !in old(all) && count == old(count) + 1
      ensures r != None ==> all == old(all)[r.value := Subscription(event, |published|, [], true, [])]
    {
      if closed || count >= max {
        return None;
      }
      Added(published, subs, count, max, all, next, event);
      r := Some(next);
      Register(event);
    }

    /** The second half of Subscribe, under the lock: one more subscription, indexed and counted. */
    method Register(event: Text)
      modifies this`subs, this`count, this`all, this`next
      ensures subs == old(subs)[event := Watching(old(subs), event) + {old(next)}]
      ensures all == old(all)[old(next) := Subscription(event, |published|, [], true, [])]
      ensures next == old(next) + 1 && count == old(count) + 1
    {
      subs := subs[event := Watching(subs, event) + {next}];
      all := all[next := Subscription(event, |published|, [], true, [])];
      next := next + 1;
      count := count + 1;
    }

    /** remove: deregisters and closes together; nothing happens if it was removed before. */
    method Remove(s: SubId)
      requires Consistent() && s in all
      modifies this`subs, this`count, this`all
      ensures Consistent() && all == old(all)[s := old(all)[s].(open := false)]
      ensures count == if old(all)[s].open then old(count) - 1 else old(count)
      ensures subs.Keys <= old(subs).Keys && forall e :: e in subs ==> subs[e] == old(subs)[e] - {s}
    {
      var e := all[s].event;
      assert Listed(subs, all, e, s);
      forall f | f in subs && f != e ensures s !in subs[f] { assert Listed(subs, all, f, s); }
      if e !in subs || s !in subs[e] {
        assert all == all[s := all[s].(open := false)];
        return;
      }
      RemoveIndexes(subs, all, s);
      RemoveCount(count, max, all, s);
      var watchers: set<SubId> := subs[e] - {s};
      if watchers == {} {
        subs := subs - {e};
      } else {
        subs := subs[e := watchers];
      }
      count := count - 1;
      assert all[s].open; // close(s.c) would panic on a closed channel
      all := all[s := all[s].(open := false)];
    }

    /** Subscription.Close, any number of times. */
    method CloseSubscription(s: SubId)
      requires Valid() && s in all
      modifies this`subs, this`count, this`all
      ensures Valid() && all == old(all)[s := old(all)[s].(open := false)]
    {
      Remove(s);
      assert Got(all[s]) == Got(old(all)[s]) && Due(published, all[s]) == Due(published, old(all)[s]);
      assert InOrder(published, old(all)[s]);
    }

    /** The body of Publish's loop: send if there is room, cut off otherwise. */
    method DeliverTo(s: SubId, u: Update)
      requires Consistent() && s in all && all[s].open
      modifies this`subs, this`count, this`all
      ensures Consistent() && all == old(all)[s := After(old(all)[s], old(all)[s].event, u)]
      ensures all == old(all)[s := if |old(all)[s].buffer| < 64 then old(all)[s].(buffer := old(all)[s].buffer + [u])
                                   else old(all)[s].(open := false)]
      ensures subs.Keys <= old(subs).Keys
    {
      if |all[s].buffer| < SUBSCRIBER_BUFFER {
        var sent := all[s].(buffer := all[s].buffer + [u]); // open, so the send does not panic
        SendStructure(subs, count, max, all, s, sent);
        all := all[s := sent];
      } else {
        Remove(s);
      }
    }

    /** Publish: everyone watching gets the update, except those whose buffer is full, who are cut off instead. */
    method Publish(event: Text, u: Update)
      requires Valid()
      modifies this`subs, this`count, this`all, this`published
      ensures Valid() && published == old(published) + [(event, u)]
      ensures AllAfter(old(all), all, event, u)
      ensures all.Keys == old(all).Keys && forall s :: s in all ==>
        if old(all)[s].open && old(all)[s].event == event then
          if |old(all)[s].buffer| < 64 then all[s] == old(all)[s].(buffer := old(all)[s].buffer + [u])
          else |old(all)[s].buffer| == 64 && all[s] == old(all)[s].(open := false)
        else all[s] == old(all)[s]
    {
      DeliverToAll(event, u);
      assert closed ==> subs == map[];
      assert AllInOrder(published + [(event, u)], all) by { AllAfterInOrder(published, old(all), all, event, u); }
      published := published + [(event, u)];
    }

    /** Publish's loop over the event's watchers; some are taken off the list as it goes. */
    method DeliverToAll(event: Text, u: Update)
      requires Consistent()
      modifies this`subs, this`count, this`all
      ensures Consistent() && AllAfter(old(all), all, event, u)
      ensures subs.Keys <= old(subs).Keys
    {
      var todo: set<SubId> := Watching(subs, event);
      WatchingAre(subs, all, event);
      while todo != {}
        invariant Consistent() && subs.Keys <= old(subs).Keys && PartlyAfter(old(all), all, todo, event, u)
        decreases todo
      {
        var s :| s in todo;
        OneMoreAfter(old(all), all, todo, event, u, s);
        DeliverTo(s, u);
        todo := todo - {s};
      }
    }

    /** Close: every subscription ends, and new ones are refused from now on. */
    method Close()
      requires Valid()
      modifies this`subs, this`count, this`all, this`closed
      ensures Valid() && closed && count == 0 && subs == map[]
      ensures all.Keys == old(all).Keys && forall s :: s in all ==> all[s] == old(all)[s].(open := false)
    {
      closed := true;
      CloseAll();
      NoneOpen(subs, all);
      assert OpenIds(all) == {};
      ClosedInOrder(published, old(all), all);
    }

    /** The outer loop of Close, over the events that had watchers when it began. */
    method CloseAll()
      requires Consistent()
      modifies this`subs, this`count, this`all
      ensures Consistent() && subs.Keys == {} && ClosedSome(old(all), all)
    {
      var events: set<Text> := subs.Keys;
      while events != {}
        invariant Consistent() && subs.Keys <= events && ClosedSome(old(all), all)
        decreases events
      {
        var e :| e in events;
        CloseWatchers(e);
        events := events - {e};
      }
    }

    /** The inner loop of Close: all watchers of one event. */
    method CloseWatchers(e: Text)
      requires Consistent()
      modifies this`subs, this`count, this`all
      ensures Consistent() && ClosedSome(old(all), all) && subs.Keys <= old(subs).Keys - {e}
    {
      var todo: set<SubId> := Watching(subs, e);
      WatchingAre(subs, all, e);
      while todo != {}
        invariant Consistent() && ClosedSome(old(all), all) && subs.Keys <= old(subs).Keys
        invariant todo <= all.Keys && (e in subs ==> subs[e] <= todo)
        decreases todo
        modifies this`subs, this`count, this`all
      {
        var s :| s in todo;
        ClosedOneMore(old(all), all, s);
        Remove(s);
        todo := todo - {s};
      }
    }

    /** Receive, the browser's side: the next update, or nothing if there is none. */
    method Receive(s: SubId) returns (u: Option<Update>)
      requires Valid() && s in all
      modifies this`all
      ensures Valid()
      ensures u == if old(all)[s].buffer == [] then None else Some(old(all)[s].buffer[0])
      ensures all.Keys == old(all).Keys && Got(all[s]) == Got(old(all)[s])
      ensures old(all)[s].buffer == [] ==> all[s] == old(all)[s]
      ensures old(all)[s].buffer != [] ==>
        all[s] == old(all)[s].(buffer := old(all)[s].buffer[1..], received := old(all)[s].received + [old(all)[s].buffer[0]])
      ensures forall t :: t in all && t != s ==> all[t] == old(all)[t]
    {
      var sub := all[s];
      if sub.buffer == [] {
        return None;
      }
      var rest := sub.(buffer := sub.buffer[1..], received := sub.received + [sub.buffer[0]]);
      Taken(published, subs, count, max, all, next, s, rest);
      all := all[s := rest];
      return Some(sub.buffer[0]);
    }
  }

  /** What one Publish does to one subscription. */
  function After(s: Subscription, event: Text, u: Update): Subscription {
    if !s.open || s.event != event then s
    else if |s.buffer| < SUBSCRIBER_BUFFER then s.(buffer := s.buffer + [u])
    else s.(open := false)
  }

  lemma AfterInOrder(published: Published, s: Subscription, event: Text, u: Update)
    requires Fits(published, s) && InOrder(published, s)
    ensures Fits(published + [(event, u)], After(s, event, u)) && InOrder(published + [(event, u)], After(s, event, u))
  {
    DueOne(published, event, u, s);
    var t := After(s, event, u);
    assert Due(published + [(event, u)], t) == Due(published + [(event, u)], s);
    if t.buffer != s.buffer { assert Got(t) == Got(s) + [u]; }
  }

  /** What one Publish does to all of them. */
  ghost predicate AllAfter(was: Subscriptions, now: Subscriptions, event: Text, u: Update) {
    now.Keys == was.Keys && forall s :: s in now ==> now[s] == After(was[s], event, u)
  }

  /** Publish's loop with `todo` still to come. */
  ghost predicate PartlyAfter(was: Subscriptions, now: Subscriptions, todo: set<SubId>, event: Text, u: Update) {
    && now.Keys == was.Keys && todo <= now.Keys
    && (forall s :: s in todo ==> now[s].open && now[s].event == event && now[s] == was[s])
    && (forall s :: s in now && s !in todo ==> now[s] == After(was[s], event, u))
  }

  lemma OneMoreAfter(was: Subscriptions, now: Subscriptions, todo: set<SubId>, event: Text, u: Update, s: SubId)
    requires PartlyAfter(was, now, todo, event, u) && s in todo
    ensures PartlyAfter(was, now[s := After(now[s], now[s].event, u)], todo - {s}, event, u)
  {
  }

  lemma AllAfterInOrder(published: Published, was: Subscriptions, now: Subscriptions, event: Text, u: Update)
    requires AllInOrder(published, was) && AllAfter(was, now, event, u)
    ensures AllInOrder(published + [(event, u)], now)
  {
    forall s | s in now ensures Fits(published + [(event, u)], now[s]) && InOrder(published + [(event, u)], now[s]) {
      AfterInOrder(published, was[s], event, u);
    }
  }

  lemma SetInOrder(published: Published, all: Subscriptions, s: SubId, t: Subscription)
    requires AllInOrder(published, all) && Good(published, t)
    ensures AllInOrder(published, all[s := t])
  {
  }

  lemma NewIsGood(published: Published, event: Text)
    ensures Good(published, Subscription(event, |published|, [], true, []))
  {
    assert published[|published|..] == [];
  }

  lemma TakenIsGood(published: Published, s: Subscription, t: Subscription)
    requires Good(published, s) && s.buffer != [] && t == s.(buffer := s.buffer[1..], received := s.received + [s.buffer[0]])
    ensures Got(t) == Got(s) && Good(published, t)
  {
    assert Got(t) == Got(s);
  }

  /** The same subscriptions, some of them closed meanwhile, nothing else changed. */
  ghost predicate ClosedSome(was: Subscriptions, now: Subscriptions) {
    was.Keys == now.Keys && forall s :: s in was ==> now[s] == was[s] || now[s] == was[s].(open := false)
  }

  lemma ClosedOneMore(was: Subscriptions, now: Subscriptions, s: SubId)
    requires ClosedSome(was, now) && s in now
    ensures ClosedSome(was, now[s := now[s].(open := false)])
  {
  }

  lemma NoneOpen(subs: Index, all: Subscriptions)
    requires Indexes(subs, all) && subs.Keys == {}
    ensures subs == map[] && forall s :: s in all ==> !all[s].open
  {
    forall s | s in all ensures !all[s].open { assert Listed(subs, all, all[s].event, s); }
  }

  lemma ClosedInOrder(published: Published, was: Subscriptions, now: Subscriptions)
    requires AllInOrder(published, was) && ClosedSome(was, now)
    ensures AllInOrder(published, now)
  {
    forall s | s in now ensures Fits(published, now[s]) && InOrder(published, now[s]) {
      assert Got(now[s]) == Got(was[s]) && Due(published, now[s]) == Due(published, was[s]);
      assert InOrder(published, was[s]);
    }
  }

  // ---- count is the sum of the watcher sets' sizes ----

  ghost function Size(subs: Index): Text -> int {
    (e: Text) => if e in subs then |subs[e]| else 0
  }

  ghost predicate Member(subs: Index, s: SubId) {
    exists e :: e in subs && s in subs[e]
  }

  /** The watcher sets share no subscription and together are `ids`. */
  ghost predicate Partition(subs: Index, ids: set<SubId>) {
    && (forall s :: s in ids <==> Member(subs, s))
    && (forall e, f, s :: e in subs && f in subs && s in subs[e] && s in subs[f] ==> e == f)
  }

  lemma PartitionRest(subs: Index, ids: set<SubId>, e: Text)
    requires Partition(subs, ids) && e in subs
    ensures Partition(subs - {e}, ids - subs[e]) && subs[e] <= ids
  {
    var rest := subs - {e};
    forall s ensures s in subs[e] ==> s in ids { assert s in subs[e] ==> Member(subs, s); }
    forall s ensures s in ids - subs[e] <==> Member(rest, s) {
      if s in ids - subs[e] {
        var f :| f in subs && s in subs[f];
        assert f in rest;
      }
      if f :| f in rest && s in rest[f] {
        assert f in subs && s in subs[f] && Member(subs, s);
      }
    }
  }

  lemma SizeSplits(ids: set<SubId>, some: set<SubId>)
    requires some <= ids
    ensures |ids| == |some| + |ids - some|
  {
    assert ids == some + (ids - some);
  }

  lemma SizesSplit(subs: Index, e: Text)
    requires e in subs
    ensures Sum(subs.Keys, Size(subs)) == |subs[e]| + Sum((subs - {e}).Keys, Size(subs - {e}))
  {
    var rest := subs - {e};
    assert rest.Keys == subs.Keys - {e};
    SumPick(subs.Keys, e, Size(subs));
    SumSame(rest.Keys, Size(rest), Size(subs));
  }

  lemma {:induction false} SumOfSizes(subs: Index, ids: set<SubId>)
    requires Partition(subs, ids)
    ensures Sum(subs.Keys, Size(subs)) == |ids|
    decreases |subs.Keys|
  {
    if subs == map[] {
      assert ids == {};
    } else {
      var e :| e in subs;
      PartitionRest(subs, ids, e);
      SizeSplits(ids, subs[e]);
      SumOfSizes(subs - {e}, ids - subs[e]);
      SizesSplit(subs, e);
    }
  }

  /** `count` is what Subscribers reports: the sizes of all watcher sets together. */
  lemma CountIsSumOfSizes(subs: Index, all: Subscriptions, count: int, max: int)
    requires Indexes(subs, all) && Counted(count, max, all)
    ensures count == Sum(subs.Keys, Size(subs)) && (0 <= max ==> 0 <= count <= max)
  {
    forall e, f, s | e in subs && f in subs && s in subs[e] && s in subs[f] ensures e == f {
      assert Listed(subs, all, e, s) && Listed(subs, all, f, s);
    }
    forall s ensures s in OpenIds(all) <==> Member(subs, s) {
      if s in OpenIds(all) { assert Listed(subs, all, all[s].event, s); }
      if e :| e in subs && s in subs[e] { assert Listed(subs, all, e, s); }
    }
    SumOfSizes(subs, OpenIds(all));
  }

  /** Touching only a channel's contents leaves the index and the count alone. */
  lemma SendStructure(subs: Index, count: int, max: int, all: Subscriptions, s: SubId, t: Subscription)
    requires Indexes(subs, all) && Counted(count, max, all) && s in all && t.open == all[s].open && t.event == all[s].event
    ensures Indexes(subs, all[s := t]) && Counted(count, max, all[s := t])
  {
    assert OpenIds(all[s := t]) == OpenIds(all);
    var now := all[s := t];
    forall e, x ensures Listed(subs, now, e, x) { assert Listed(subs, all, e, x); }
  }
}
