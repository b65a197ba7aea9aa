/** The fixed-window rate limiter shared by the gateway replicas (pkg/ratelimit) and its use in the gateway. */
module RateLimiter {
  import opened Domain

  /** A Redis counter; times are in milliseconds. */
  datatype Counter = Counter(count: int, expires: Option<int>)

  /** What the script returns. */
  datatype Tally = Tally(count: int, ttl: int)

  datatype Result = Result(allowed: bool, remaining: int, resetIn: int)

  predicate Alive(c: Counter, now: int, grace: nat) {
    c.expires.None? || KeyAlive(c.expires.value, now, grace)
  }

  /** INCR: a missing or expired key counts from zero and has no expiry. */
  function Incremented(store: map<string, Counter>, key: string, now: int, grace: nat): Counter {
    if key in store && Alive(store[key], now, grace) then store[key].(count := store[key].count + 1)
    else Counter(1, None)
  }

  /** allowScript, as the one atomic step Redis makes of it. PEXPIRE with no time left deletes the key. */
  function Script(store: map<string, Counter>, key: string, window: int, now: int, grace: nat): (map<string, Counter>, Tally) {
    var c := Incremented(store, key, now, grace);
    if c.count == 1 || c.expires.None? then
      if window <= 0 then (store - {key}, Tally(c.count, window))
      else (store[key := Counter(c.count, Some(now + window))], Tally(c.count, window))
    else
      (store[key := c], Tally(c.count, if c.expires.value < now then 0 else c.expires.value - now))
  }

  /** Seconds, rounded up from nanoseconds, and never less than one. */
  function RetryAfter(ttl: int): (seconds: int)
    ensures seconds >= 1 && 1000 * seconds >= ttl
    ensures seconds > 1 ==> 1000 * (seconds - 1) < ttl
  {
    var s := (ttl * 1_000_000 + 999_999_999) / 1_000_000_000;
    if s < 1 then 1 else s
  }

  /** The key is there and has no expiry, or `now` is before its expiry and the grace. */
  predicate Running(store: map<string, Counter>, key: string, now: int, grace: nat) {
    key in store && (store[key].expires.None? || now < store[key].expires.value + grace)
  }

  class Limiter {
    var store: map<string, Counter>
    const grace: nat

    constructor (grace: nat)
      ensures store == map[] && this.grace == grace
    {
      store := map[];
      this.grace := grace;
    }

    /** Allow. A fault stands for a script that did not run, or ran without its reply arriving. */
    method Allow(key: string, limit: int, window: int, now: int, fault: Fault) returns (r: Option<Result>)
      modifies this
      ensures store == if fault.RolledBack? then old(store) else Script(old(store), key, window, now, grace).0
      ensures forall k :: k != key ==> (k in store <==> k in old(store)) && (k in store ==> store[k] == old(store)[k])
      ensures r.Some? <==> fault.Clean?
      ensures r.Some? ==>
        var tally := Script(old(store), key, window, now, grace).1;
        && (r.value.allowed <==> tally.count <= limit)
        && r.value.remaining >= 0
        && (tally.count <= limit ==> r.value.remaining + tally.count == limit)
        && (!r.value.allowed ==> r.value.remaining == 0)
        && r.value.resetIn == tally.ttl
    {
      if fault.RolledBack? {
        return None;
      }
      var reply := Script(store, key, window, now, grace);
      store := reply.0;
      if fault.Unreported? {
        return None;
      }
      var remaining := limit - reply.1.count;
      if remaining < 0 {
        remaining := 0;
      }
      return Some(Result(reply.1.count <= limit, remaining, reply.1.ttl));
    }

    /** The gateway's allow: an unreachable limiter lets the request through; a refusal says when to come back. */
    method AllowRequest(key: string, limit: int, window: int, now: int, fault: Fault) returns (pass: bool, retry: Option<int>)
      modifies this
      ensures store == if fault.RolledBack? then old(store) else Script(old(store), key, window, now, grace).0
      ensures pass <==> fault != Clean || Script(old(store), key, window, now, grace).1.count <= limit
      ensures retry == if pass then None else Some(RetryAfter(Script(old(store), key, window, now, grace).1.ttl))
      ensures fault == RolledBack ==> pass && store == old(store)
      // no counter that still runs: this call is the first of a new window
      ensures window >= 1 && fault != RolledBack && !Running(old(store), key, now, grace) ==>
        store == old(store)[key := Counter(1, Some(now + window))] && (pass <==> fault == Unreported || 1 <= limit)
      // one that does: this call is one more in it
      ensures fault != RolledBack && Running(old(store), key, now, grace) && old(store)[key].count >= 1 && old(store)[key].expires.Some? ==>
        && store == old(store)[key := Counter(old(store)[key].count + 1, old(store)[key].expires)]
        && (pass <==> fault == Unreported || old(store)[key].count + 1 <= limit)
        && (!pass ==>
              var left := old(store)[key].expires.value - now;
              && retry.Some? && retry.value >= 1 && 1000 * retry.value >= left && (retry.value > 1 ==> 1000 * (retry.value - 1) < left))
    {
      var res := Allow(key, limit, window, now, fault);
      if res.None? || res.value.allowed {
        return true, None;
      }
      var seconds := (res.value.resetIn * 1_000_000 + 999_999_999) / 1_000_000_000;
      if seconds < 1 {
        seconds := 1;
      }
      return false, Some(seconds);
    }
  }

  /** No counter is left without an end, whatever state the store was in: nobody stays blocked forever. */
  lemma EveryCounterEnds(store: map<string, Counter>, key: string, window: int, now: int, grace: nat)
    requires window >= 1
    ensures var after := Script(store, key, window, now, grace).0;
      key in after && after[key].expires.Some? && Alive(after[key], now, grace)
    ensures var after := Script(store, key, window, now, grace).0;
      after[key].expires == Some(now + window) || (key in store && after[key].expires == store[key].expires)
  {
  }

  // ---- every history of calls with one limit and one window ----

  datatype Attempt = Attempt(key: string, now: int)

  ghost predicate InTime(calls: seq<Attempt>) {
    forall i, j :: 0 <= i < j < |calls| ==> calls[i].now <= calls[j].now
  }

  /** The store after the first n calls. */
  ghost function After(calls: seq<Attempt>, n: nat, window: int, grace: nat): map<string, Counter>
    requires n <= |calls|
  {
    if n == 0 then map[]
    else Script(After(calls, n - 1, window, grace), calls[n - 1].key, window, calls[n - 1].now, grace).0
  }

  /** The counter the i-th call saw once it had counted itself. */
  ghost function Seen(calls: seq<Attempt>, i: nat, window: int, grace: nat): (c: Counter)
    requires i < |calls| && window >= 1
    ensures c.expires.Some? && calls[i].now < c.expires.value + grace
    ensures c.count == Script(After(calls, i, window, grace), calls[i].key, window, calls[i].now, grace).1.count
  {
    EveryCounterEnds(After(calls, i, window, grace), calls[i].key, window, calls[i].now, grace);
    After(calls, i + 1, window, grace)[calls[i].key]
  }

  ghost predicate Passed(calls: seq<Attempt>, i: nat, limit: int, window: int, grace: nat)
    requires i < |calls| && window >= 1
  {
    Seen(calls, i, window, grace).count <= limit
  }

  /** `d` is `c` after more calls, or the counter of a later window, which opens only once c's is over. */
  ghost predicate Follows(c: Counter, d: Counter, window: int, grace: nat) {
    && c.expires.Some? && d.expires.Some?
    && (if d.expires == c.expires then d.count >= c.count else d.expires.value >= c.expires.value + grace + window)
  }

  lemma {:induction false} CountsFromOne(calls: seq<Attempt>, n: nat, window: int, grace: nat)
    requires n <= |calls| && window >= 1
    ensures forall k :: k in After(calls, n, window, grace) ==>
      After(calls, n, window, grace)[k].count >= 1 && After(calls, n, window, grace)[k].expires.Some?
  {
    if n > 0 {
      CountsFromOne(calls, n - 1, window, grace);
    }
  }

  lemma {:induction false} LaterCounters(calls: seq<Attempt>, i: nat, n: nat, window: int, grace: nat)
    requires i < n <= |calls| && window >= 1
    ensures var key := calls[i].key; var now := After(calls, n, window, grace);
      key in now && Follows(Seen(calls, i, window, grace), now[key], window, grace)
  {
    if n > i + 1 {
      LaterCounters(calls, i, n - 1, window, grace);
      CountsFromOne(calls, n - 1, window, grace);
    }
  }

  /** Two calls on one key share a window and count up, or the second one's window opens after the first one's end. */
  lemma TwoCalls(calls: seq<Attempt>, i: nat, j: nat, window: int, grace: nat)
    requires i < j < |calls| && window >= 1 && calls[i].key == calls[j].key
    ensures var c, d := Seen(calls, i, window, grace), Seen(calls, j, window, grace);
      if c.expires == d.expires then c.count < d.count else d.expires.value >= c.expires.value + grace + window
  {
    LaterCounters(calls, i, j, window, grace);
    CountsFromOne(calls, j, window, grace);
  }

  lemma {:induction false} Opened(calls: seq<Attempt>, n: nat, window: int, grace: nat)
    requires n <= |calls| && window >= 1 && InTime(calls)
    ensures forall k :: k in After(calls, n, window, grace) ==>
      var c := After(calls, n, window, grace)[k];
      && c.count >= 1 && c.expires.Some?
      && (forall m :: n <= m < |calls| ==> c.expires.value <= calls[m].now + window)
  {
    if n > 0 {
      Opened(calls, n - 1, window, grace);
    }
  }

  /** A call's window was opened no later than the call, and by the call itself if it is the first one counted. */
  lemma SeenIsOpen(calls: seq<Attempt>, i: nat, window: int, grace: nat)
    requires i < |calls| && window >= 1 && InTime(calls)
    ensures var c := Seen(calls, i, window, grace);
      && c.count >= 1 && c.expires.value <= calls[i].now + window
      && (c.count == 1 ==> c.expires.value == calls[i].now + window)
  {
    Opened(calls, i, window, grace);
  }

  /** The calls on `key` that pass in the window-long interval from `a`. */
  ghost function Burst(calls: seq<Attempt>, key: string, a: int, limit: int, window: int, grace: nat): set<nat>
    requires window >= 1
  {
    set i: nat | i < |calls| && calls[i].key == key && a <= calls[i].now < a + window && Passed(calls, i, limit, window, grace)
  }

  lemma OrderedWindows(calls: seq<Attempt>, i: nat, j: nat, k: nat, a: int, window: int, grace: nat)
    requires i <= j <= k < |calls| && window >= 1 && InTime(calls)
    requires calls[i].key == calls[j].key == calls[k].key && a <= calls[i].now && calls[k].now < a + window
    ensures var w := (x: nat) requires x < |calls| => Seen(calls, x, window, grace).expires;
      w(i) == w(j) || w(j) == w(k)
  {
    if i < j { TwoCalls(calls, i, j, window, grace); }
    if j < k { TwoCalls(calls, j, k, window, grace); }
    SeenIsOpen(calls, k, window, grace);
  }

  /** An interval one window long meets at most two windows. */
  lemma AtMostTwoWindows(calls: seq<Attempt>, i: nat, j: nat, k: nat, key: string, a: int, limit: int, window: int, grace: nat)
    requires window >= 1 && InTime(calls)
    requires {i, j, k} <= Burst(calls, key, a, limit, window, grace)
    ensures var w := (x: nat) requires x < |calls| => Seen(calls, x, window, grace).expires;
      w(i) == w(j) || w(j) == w(k) || w(i) == w(k)
  {
    var s := Burst(calls, key, a, limit, window, grace);
    assert i in s && j in s && k in s;
    if i <= j <= k { OrderedWindows(calls, i, j, k, a, window, grace); }
    else if i <= k <= j { OrderedWindows(calls, i, k, j, a, window, grace); }
    else if j <= i <= k { OrderedWindows(calls, j, i, k, a, window, grace); }
    else if j <= k <= i { OrderedWindows(calls, j, k, i, a, window, grace); }
    else if k <= i <= j { OrderedWindows(calls, k, i, j, a, window, grace); }
    else { OrderedWindows(calls, k, j, i, a, window, grace); }
  }

  /** A set whose members carry different numbers between lo and hi has no more members than that. */
  lemma {:induction false} Numbered(s: set<nat>, number: nat -> int, lo: int, hi: int)
    requires forall i :: i in s ==> lo <= number(i) <= hi
    requires forall i, j :: i in s && j in s && number(i) == number(j) ==> i == j
    ensures |s| <= if hi < lo then 0 else hi - lo + 1
    decreases hi - lo
  {
    if hi < lo {
      assert s == {};
    } else if i: nat :| i in s && number(i) == hi {
      Numbered(s - {i}, number, lo, hi - 1);
    } else {
      Numbered(s, number, lo, hi - 1);
    }
  }

  /** Calls of one window pass at most `limit` times, and one time less if the call that opened it is not among them. */
  lemma OneWindow(calls: seq<Attempt>, s: set<nat>, key: string, lo: int, limit: int, window: int, grace: nat)
    requires window >= 1
    requires forall i :: i in s ==> i < |calls| && calls[i].key == key && lo <= Seen(calls, i, window, grace).count <= limit
    requires forall i, j :: i in s && j in s ==> Seen(calls, i, window, grace).expires == Seen(calls, j, window, grace).expires
    ensures |s| <= if limit < lo then 0 else limit - lo + 1
  {
    var number := (i: nat) => if i < |calls| then Seen(calls, i, window, grace).count else 0;
    forall i, j | i in s && j in s && number(i) == number(j) ensures i == j {
      if i < j { TwoCalls(calls, i, j, window, grace); }
      if j < i { TwoCalls(calls, j, i, window, grace); }
    }
    Numbered(s, number, lo, limit);
  }

  /** If an interval meets two windows, the call that opened the earlier one lies before it. */
  lemma OpenerIsOutside(calls: seq<Attempt>, i: nat, j: nat, key: string, a: int, limit: int, window: int, grace: nat)
    requires window >= 1 && InTime(calls)
    requires {i, j} <= Burst(calls, key, a, limit, window, grace)
    requires Seen(calls, i, window, grace).expires.value < Seen(calls, j, window, grace).expires.value
    ensures Seen(calls, i, window, grace).count >= 2
  {
    assert i in {i, j} && j in {i, j};
    SeenIsOpen(calls, i, window, grace);
    SeenIsOpen(calls, j, window, grace);
    if j < i { TwoCalls(calls, j, i, window, grace); } else { TwoCalls(calls, i, j, window, grace); }
  }

  /** The calls of a burst that fall in the same window as call i. */
  ghost function Together(calls: seq<Attempt>, s: set<nat>, i: nat, window: int, grace: nat): set<nat>
    requires window >= 1 && i < |calls| && forall x :: x in s ==> x < |calls|
  {
    set x: nat | x in s && Seen(calls, x, window, grace).expires == Seen(calls, i, window, grace).expires
  }

  lemma EarlierWindow(calls: seq<Attempt>, i: nat, j: nat, key: string, a: int, limit: int, window: int, grace: nat)
    requires window >= 1 && InTime(calls)
    requires {i, j} <= Burst(calls, key, a, limit, window, grace)
    requires Seen(calls, i, window, grace).expires.value < Seen(calls, j, window, grace).expires.value
    ensures |Together(calls, Burst(calls, key, a, limit, window, grace), i, window, grace)| <= limit - 1
  {
    var s := Burst(calls, key, a, limit, window, grace);
    assert i in s && j in s;
    var early := Together(calls, s, i, window, grace);
    forall x | x in early ensures Seen(calls, x, window, grace).count >= 2 {
      OpenerIsOutside(calls, x, j, key, a, limit, window, grace);
    }
    assert i in early;
    OneWindow(calls, early, key, 2, limit, window, grace);
  }

  lemma LaterWindow(calls: seq<Attempt>, i: nat, j: nat, key: string, a: int, limit: int, window: int, grace: nat)
    requires window >= 1 && InTime(calls) && limit >= 1
    requires {i, j} <= Burst(calls, key, a, limit, window, grace)
    requires Seen(calls, i, window, grace).expires != Seen(calls, j, window, grace).expires
    ensures var s := Burst(calls, key, a, limit, window, grace);
      |s - Together(calls, s, i, window, grace)| <= limit
  {
    var s := Burst(calls, key, a, limit, window, grace);
    assert i in s && j in s;
    var late := s - Together(calls, s, i, window, grace);
    forall x | x in late ensures Seen(calls, x, window, grace).expires == Seen(calls, j, window, grace).expires {
      AtMostTwoWindows(calls, i, j, x, key, a, limit, window, grace);
    }
    forall x | x in late ensures Seen(calls, x, window, grace).count >= 1 { SeenIsOpen(calls, x, window, grace); }
    OneWindow(calls, late, key, 1, limit, window, grace);
  }

  lemma TwoWindows(calls: seq<Attempt>, i: nat, j: nat, key: string, a: int, limit: int, window: int, grace: nat)
    requires window >= 1 && InTime(calls) && limit >= 1
    requires {i, j} <= Burst(calls, key, a, limit, window, grace)
    requires Seen(calls, i, window, grace).expires.value < Seen(calls, j, window, grace).expires.value
    ensures |Burst(calls, key, a, limit, window, grace)| <= 2 * limit - 1
  {
    var s := Burst(calls, key, a, limit, window, grace);
    var early := Together(calls, s, i, window, grace);
    EarlierWindow(calls, i, j, key, a, limit, window, grace);
    LaterWindow(calls, i, j, key, a, limit, window, grace);
    assert s == early + (s - early);
  }

  /** In any history, any interval one window long lets through fewer than twice the limit. */
  lemma BurstIsBounded(calls: seq<Attempt>, key: string, a: int, limit: int, window: int, grace: nat)
    requires window >= 1 && InTime(calls)
    ensures |Burst(calls, key, a, limit, window, grace)| <= if limit < 1 then 0 else 2 * limit - 1
  {
    var s := Burst(calls, key, a, limit, window, grace);
    if i: nat :| i in s {
      SeenIsOpen(calls, i, window, grace);
      if j: nat :| j in s - Together(calls, s, i, window, grace) {
        if Seen(calls, i, window, grace).expires.value < Seen(calls, j, window, grace).expires.value {
          TwoWindows(calls, i, j, key, a, limit, window, grace);
        } else {
          TwoWindows(calls, j, i, key, a, limit, window, grace);
        }
      } else {
        assert s - Together(calls, s, i, window, grace) == {};
        forall x | x in s ensures x in Together(calls, s, i, window, grace) && Seen(calls, x, window, grace).count >= 1 {
          assert x !in s - Together(calls, s, i, window, grace);
          SeenIsOpen(calls, x, window, grace);
        }
        OneWindow(calls, s, key, 1, limit, window, grace);
      }
    }
  }

  /** The bound is sharp: one early call, the rest of the allowance at the window's end, then a whole new allowance. */
  ghost function Spike(key: string, limit: nat, window: int, grace: nat): (calls: seq<Attempt>)
    requires limit >= 1 && window > grace + 1
    ensures |calls| == 2 * limit && InTime(calls)
  {
    seq(2 * limit, (i: nat) => Attempt(key, if i == 0 then 0 else if i < limit then window - 1 else window + grace))
  }

  lemma {:induction false} SpikeCounts(key: string, limit: nat, window: int, grace: nat, n: nat)
    requires limit >= 1 && window > grace + 1 && 1 <= n <= 2 * limit
    ensures After(Spike(key, limit, window, grace), n, window, grace) ==
      map[key := if n <= limit then Counter(n, Some(window)) else Counter(n - limit, Some(2 * window + grace))]
  {
    if n > 1 {
      SpikeCounts(key, limit, window, grace, n - 1);
    } else {
      assert After(Spike(key, limit, window, grace), 0, window, grace) == map[];
    }
  }

  lemma BurstCanReachTheBound(key: string, limit: nat, window: int, grace: nat)
    requires limit >= 1 && window > grace + 1
    ensures |Burst(Spike(key, limit, window, grace), key, window - 1, limit, window, grace)| == 2 * limit - 1
  {
    var calls := Spike(key, limit, window, grace);
    var s := Burst(calls, key, window - 1, limit, window, grace);
    forall i: nat | 1 <= i < 2 * limit ensures i in s {
      SpikeCounts(key, limit, window, grace, i + 1);
    }
    AtLeast(s, 1, 2 * limit);
    BurstIsBounded(calls, key, window - 1, limit, window, grace);
  }

  lemma {:induction false} AtLeast(s: set<nat>, lo: nat, hi: nat)
    requires lo <= hi && forall i: nat :: lo <= i < hi ==> i in s
    ensures |s| >= hi - lo
  {
    if lo < hi { AtLeast(s - {hi - 1}, lo, hi - 1); }
  }

  // ---- a client told to wait ----

  /**
   * A client over the limit, the only caller of its key, that comes back after exactly the seconds it was told:
   * it gets a new window, unless the key outlives its expiry by a millisecond and a whole number of seconds was left.
   */
  lemma ComingBack(store: map<string, Counter>, key: string, limit: int, window: int, now: int, grace: nat)
    requires limit >= 1 && window >= 1 && grace <= 1
    requires Script(store, key, window, now, grace).1.count > limit
    ensures var (later, tally) := Script(store, key, window, now, grace);
      Script(later, key, window, now + 1000 * RetryAfter(tally.ttl), grace).1.count <= limit
      <==> grace == 0 || tally.ttl == 0 || tally.ttl % 1000 != 0
  {
    var (later, tally) := Script(store, key, window, now, grace);
    var seconds := RetryAfter(tally.ttl);
    EveryCounterEnds(store, key, window, now, grace);
  }

  /** The instance: limit 1, window 1 s. Two calls at once; the second is told 1 s, comes back then, and is still blocked. */
  lemma ToldTooEarly(key: string)
    ensures var calls := [Attempt(key, 0), Attempt(key, 0), Attempt(key, 1000)];
      && InTime(calls)
      && !Passed(calls, 1, 1, 1000, 1)
      && RetryAfter(Script(After(calls, 1, 1000, 1), key, 1000, 0, 1).1.ttl) == 1
      && !Passed(calls, 2, 1, 1000, 1)
  {
    var calls := [Attempt(key, 0), Attempt(key, 0), Attempt(key, 1000)];
    assert After(calls, 0, 1000, 1) == map[];
    assert After(calls, 1, 1000, 1) == map[key := Counter(1, Some(1000))];
    assert After(calls, 2, 1000, 1) == map[key := Counter(2, Some(1000))];
    assert After(calls, 3, 1000, 1) == map[key := Counter(3, Some(1000))];
  }

  /** One second more is always enough. */
  lemma OneSecondMore(store: map<string, Counter>, key: string, limit: int, window: int, now: int, grace: nat, later: int)
    requires limit >= 1 && window >= 1 && grace <= 1000
    requires Script(store, key, window, now, grace).1.count > limit
    requires later >= now + 1000 * (RetryAfter(Script(store, key, window, now, grace).1.ttl) + 1)
    ensures Script(Script(store, key, window, now, grace).0, key, window, later, grace).1 == Tally(1, window)
  {
    EveryCounterEnds(store, key, window, now, grace);
  }
}
