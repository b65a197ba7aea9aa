/** inventory-svc's seat operations as the code runs them, loop by loop (server.go, validate.go). */
module InventoryServer {
  import opened Domain
  import opened SeatTable

  const HOLD_TTL := 300_000 // milliseconds

  // ---- validation ----

  /** Ids that all parse, 1 to 10 of them, none twice once parsed. */
  ghost predicate ValidSeatRequest(event: Option<Text>, raw: seq<Option<Text>>, order: Option<OrderId>) {
    && event.Some? && order.Some? && 1 <= |raw| <= MAX_SEATS_PER_ORDER
    && (forall i :: 0 <= i < |raw| ==> raw[i].Some?)
    && (forall i, j :: 0 <= i < j < |raw| ==> raw[i].value.id != raw[j].value.id)
  }

  /** validateSeatRequest, over the outcome of parsing each text. */
  method ValidateSeatRequest(event: Option<Text>, raw: seq<Option<Text>>, order: Option<OrderId>) returns (ok: bool)
    ensures ok <==> ValidSeatRequest(event, raw, order)
    ensures ok ==> 1 <= |raw| <= 10
  {
    if event.None? || order.None? || |raw| == 0 || |raw| > MAX_SEATS_PER_ORDER {
      return false;
    }
    var seen: set<SeatId> := {};
    var i := 0;
    while i < |raw|
      invariant 0 <= i <= |raw|
      invariant forall j :: 0 <= j < i ==> raw[j].Some? && raw[j].value.id in seen
      invariant forall s :: s in seen ==> exists j :: 0 <= j < i && raw[j].Some? && raw[j].value.id == s
      invariant forall j, k :: 0 <= j < k < i ==> raw[j].value.id != raw[k].value.id
    {
      if raw[i].None? || raw[i].value.id in seen {
        return false;
      }
      seen := seen + {raw[i].value.id};
      i := i + 1;
    }
    return true;
  }

  function Parsed(raw: seq<Option<Text>>): seq<SeatId>
    requires forall i :: 0 <= i < |raw| ==> raw[i].Some?
  {
    seq(|raw|, i requires 0 <= i < |raw| => raw[i].value.id)
  }

  function Typed(raw: seq<Option<Text>>): seq<Text>
    requires forall i :: 0 <= i < |raw| ==> raw[i].Some?
  {
    seq(|raw|, i requires 0 <= i < |raw| => raw[i].value)
  }

  function Keys(texts: seq<Text>): set<Text> {
    set t | t in texts
  }

  // ---- keys ----

  /** The sweeper looks a seat's key up in database spelling. */
  predicate Live(holds: map<Text, int>, seat: SeatId, now: int, grace: nat) {
    Canonical(seat) in holds && KeyAlive(holds[Canonical(seat)], now, grace)
  }

  /** The seat is HELD, and its key is the one set at time `t`. */
  ghost predicate KeyStands(seats: Table, holds: map<Text, int>, s: SeatId, t: int) {
    s in seats && seats[s].status == Held && Canonical(s) in holds && holds[Canonical(s)] == t + 300_000
  }

  /** A hold that got its key keeps it for as long as it lasts. */
  ghost predicate KeysStand(seats: Table, holds: map<Text, int>, keyed: map<SeatId, int>) {
    forall s :: s in keyed ==> KeyStands(seats, holds, s, keyed[s])
  }

  ghost predicate NoneOutlives(holds: map<Text, int>, last: int) {
    forall k :: k in holds ==> holds[k] <= last + HOLD_TTL
  }

  lemma MarkedKeys(seats: Table, holds: map<Text, int>, keyed: map<SeatId, int>, ids: set<SeatId>, status: SeatStatus, holder: Option<OrderId>)
    requires KeysStand(seats, holds, keyed)
    ensures KeysStand(Marked(seats, ids, status, holder), holds, keyed - ids)
    ensures forall s :: s in keyed && s !in ids ==> s in seats && Marked(seats, ids, status, holder)[s] == seats[s]
  {
    forall s | s in keyed - ids ensures KeyStands(Marked(seats, ids, status, holder), holds, s, (keyed - ids)[s]) {
      assert KeyStands(seats, holds, s, keyed[s]);
    }
    forall s | s in keyed && s !in ids ensures s in seats && Marked(seats, ids, status, holder)[s] == seats[s] {
      assert KeyStands(seats, holds, s, keyed[s]);
    }
  }

  /** Free seats have no standing key. */
  lemma FreeAreUnkeyed(seats: Table, holds: map<Text, int>, keyed: map<SeatId, int>, event: EventId, ids: seq<SeatId>)
    requires KeysStand(seats, holds, keyed) && Reservable(seats, event, ids)
    ensures keyed.Keys !! Ids(ids) && keyed - Ids(ids) == keyed
  {
    forall s | s in keyed ensures s !in Ids(ids) { assert KeyStands(seats, holds, s, keyed[s]); }
  }

  /** Deleting the keys of other seats. */
  lemma OtherKeysDeleted(seats: Table, holds: map<Text, int>, keyed: map<SeatId, int>, raw: seq<Option<Text>>, gone: set<Text>)
    requires forall i :: 0 <= i < |raw| ==> raw[i].Some?
    requires KeysStand(seats, holds, keyed) && gone <= Keys(Typed(raw)) && keyed.Keys !! Ids(Parsed(raw))
    ensures KeysStand(seats, holds - gone, keyed)
  {
    forall s | s in keyed ensures KeyStands(seats, holds - gone, s, keyed[s]) {
      assert KeyStands(seats, holds, s, keyed[s]);
      forall i | 0 <= i < |raw| ensures Typed(raw)[i] != Canonical(s) { assert Parsed(raw)[i] in Ids(Parsed(raw)); }
    }
  }

  class Server {
    var seats: Table
    var log: seq<SeatEvent>
    /** Redis: when each hold key expires, by the text the key is made of. */
    var holds: map<Text, int>
    const grace: nat
    /** History: the latest time a hold key was set, or was about to be. */
    ghost var lastReserve: int
    /** History: the HELD seats whose key was set with the hold, and when. */
    ghost var keyed: map<SeatId, int>

    ghost function Tables(): Inventory
      reads this
    {
      Inventory(seats, log)
    }

    /** The log and the table agree, and keys stand as long as their holds and never longer than the TTL. */
    ghost predicate Valid()
      reads this
    {
      LogAgrees(Tables()) && HoldersAgree(seats) && KeysStand(seats, holds, keyed) && NoneOutlives(holds, lastReserve)
    }

    constructor (grace: nat)
      ensures Valid() && Tables() == Inventory(map[], []) && holds == map[] && this.grace == grace
    {
      seats, log, holds, lastReserve, keyed := map[], [], map[], 0, map[];
      this.grace := grace;
    }

    /** ReserveSeats. `redisDown` are the keys that could not be set; the hold stands without them. */
    method ReserveSeats(event: Option<Text>, raw: seq<Option<Text>>, order: Option<OrderId>,
                        now: int, redisDown: set<Text>, fault: Fault) returns (r: Reply)
      requires Valid() && lastReserve <= now
      modifies this
      ensures Valid() && old(lastReserve) <= lastReserve <= now
      ensures !ValidSeatRequest(event, raw, order) ==> r == Broken && Tables() == old(Tables()) && holds == old(holds)
      ensures ValidSeatRequest(event, raw, order) ==>
        var done := Reserve(old(Tables()), event.value.id, Parsed(raw), order.value, Words(event.value, Typed(raw)));
        Tables() == (if fault == RolledBack then old(Tables()) else done.0) && r == if fault == Clean then done.1 else Broken
      ensures r == Accepted ==>
        forall k :: k in Keys(Texts(Parsed(raw))) && k !in redisDown ==> k in holds && holds[k] == now + 300_000
      ensures forall k :: r != Accepted || k !in Keys(Texts(Parsed(raw))) || k in redisDown ==>
        (k in holds <==> k in old(holds)) && (k in holds ==> holds[k] == old(holds)[k])
      ensures forall s :: s in old(keyed) ==> s in keyed && keyed[s] == old(keyed)[s] && seats[s] == old(seats)[s]
      ensures r == Accepted ==> forall s :: s in Parsed(raw) && Canonical(s) !in redisDown ==> s in keyed && keyed[s] == now
    {
      var ok := ValidateSeatRequest(event, raw, order);
      if !ok {
        return Broken;
      }
      var ids := Parsed(raw);
      assert Distinct(ids);
      var free := LockAndTest(event.value.id, ids);
      if !free {
        return if fault == Clean then Refused else Broken;
      }
      if fault == RolledBack {
        return Broken;
      }
      var words := Words(event.value, Typed(raw));
      ReserveKeepsLog(Tables(), event.value.id, ids, order.value, words);
      FreeAreUnkeyed(seats, holds, keyed, event.value.id, ids);
      MarkedKeys(seats, holds, keyed, Ids(ids), Held, Some(order.value));
      seats, log := Marked(seats, Ids(ids), Held, Some(order.value)), log + [SeatEvent(event.value.id, ids, Held, words)];
      if fault == Unreported {
        return Broken;
      }
      KeepTime(ids, now, redisDown);
      return Accepted;
    }

    /** The SELECT ... FOR UPDATE, and the two tests on what it returned. */
    method LockAndTest(event: EventId, ids: seq<SeatId>) returns (free: bool)
      ensures free <==> Reservable(seats, event, ids)
    {
      // SELECT id, status ... WHERE id = ANY(ids) AND event_id = event FOR UPDATE
      var rows: seq<SeatStatus> := [];
      var i := 0;
      while i < |ids|
        invariant 0 <= i <= |ids| && |rows| <= i
        invariant |rows| == i <==> forall j :: 0 <= j < i ==> ids[j] in seats && seats[ids[j]].event == event
        invariant |rows| == i ==> forall j :: 0 <= j < i ==> rows[j] == seats[ids[j]].status
      {
        if ids[i] in seats && seats[ids[i]].event == event {
          rows := rows + [seats[ids[i]].status];
        }
        i := i + 1;
      }
      if |rows| != |ids| {
        return false;
      }
      i := 0;
      while i < |rows|
        invariant 0 <= i <= |rows|
        invariant forall j :: 0 <= j < i ==> rows[j] == Available
      {
        if rows[i] != Available {
          assert seats[ids[i]].status != Available;
          return false;
        }
        i := i + 1;
      }
      return true;
    }

    /** The keys of seats just taken, none of which had a hold before. */
    method KeepTime(ids: seq<SeatId>, now: int, redisDown: set<Text>)
      requires lastReserve <= now && KeysStand(seats, holds, keyed) && keyed.Keys !! Ids(ids) && NoneOutlives(holds, lastReserve)
      requires forall i :: 0 <= i < |ids| ==> ids[i] in seats && seats[ids[i]].status == Held
      modifies this`holds, this`lastReserve, this`keyed
      ensures lastReserve == now && KeysStand(seats, holds, keyed) && NoneOutlives(holds, lastReserve)
      ensures keyed == old(keyed) + map s | s in Ids(ids) && Canonical(s) !in redisDown :: now
      ensures forall k :: k in Keys(Texts(ids)) && k !in redisDown ==> k in holds && holds[k] == now + 300_000
      ensures forall k :: k !in Keys(Texts(ids)) || k in redisDown ==>
        (k in holds <==> k in old(holds)) && (k in holds ==> holds[k] == old(holds)[k])
    {
      lastReserve := now;
      SetKeys(Texts(ids), now, redisDown);
      keyed := keyed + map s | s in Ids(ids) && Canonical(s) !in redisDown :: now;
      forall s | s in keyed ensures KeyStands(seats, holds, s, keyed[s]) {
        if s in Ids(ids) {
          var i :| 0 <= i < |ids| && ids[i] == s;
          assert Texts(ids)[i] == Canonical(s);
        } else {
          assert KeyStands(seats, old(holds), s, old(keyed)[s]) && Canonical(s) !in Keys(Texts(ids));
        }
      }
    }

    /** One SET ... EX per seat, in database spelling; a failure is logged and passed over. */
    method SetKeys(keys: seq<Text>, now: int, redisDown: set<Text>)
      requires lastReserve == now && NoneOutlives(holds, lastReserve)
      modifies this`holds
      ensures NoneOutlives(holds, lastReserve)
      ensures forall k :: k in Keys(keys) && k !in redisDown ==> k in holds && holds[k] == now + 300_000
      ensures forall k :: k !in Keys(keys) || k in redisDown ==>
        (k in holds <==> k in old(holds)) && (k in holds ==> holds[k] == old(holds)[k])
    {
      var i := 0;
      while i < |keys|
        invariant 0 <= i <= |keys|
        invariant NoneOutlives(holds, lastReserve)
        invariant forall k :: k in Keys(keys[..i]) && k !in redisDown ==> k in holds && holds[k] == now + HOLD_TTL
        invariant forall k :: k !in Keys(keys[..i]) || k in redisDown ==>
          (k in holds <==> k in old(holds)) && (k in holds ==> holds[k] == old(holds)[k])
      {
        if keys[i] !in redisDown {
          holds := holds[keys[i] := now + HOLD_TTL];
        }
        assert Keys(keys[..i + 1]) == Keys(keys[..i]) + {keys[i]};
        i := i + 1;
      }
      assert keys[..|keys|] == keys;
    }

    /** moveHeldSeats: the UPDATE counts the rows it changes, and anything short of all of them is undone. */
    method MoveHeldSeats(event: EventId, ids: seq<SeatId>, order: OrderId, to: SeatStatus, words: Words, fault: Fault)
      returns (r: Reply)
      requires Valid() && Distinct(ids) && to != Held && Spells(words, event, ids)
      modifies this`seats, this`log, this`keyed
      ensures Valid()
      ensures forall s :: s in old(keyed) && old(seats)[s].heldBy != Some(order) ==>
        s in keyed && keyed[s] == old(keyed)[s] && seats[s] == old(seats)[s]
      ensures r == Accepted ==> keyed.Keys !! Ids(ids)
      ensures Tables() == if fault == RolledBack then old(Tables()) else Move(old(Tables()), event, ids, order, to, words).0
      ensures r == if fault == Clean then Move(old(Tables()), event, ids, order, to, words).1 else Broken
    {
      var affected := CountHeld(event, ids, order);
      if affected != |ids| {
        return if fault == Clean then Refused else Broken;
      }
      if fault == RolledBack {
        return Broken;
      }
      MoveKeepsLog(Tables(), event, ids, order, to, words);
      MarkedKeys(seats, holds, keyed, Ids(ids), to, None);
      seats, log := Marked(seats, Ids(ids), to, None), log + [SeatEvent(event, ids, to, words)];
      keyed := keyed - Ids(ids);
      return if fault == Unreported then Broken else Accepted;
    }

    /** The UPDATE's row count: all of them exactly if all are held by the order. */
    method CountHeld(event: EventId, ids: seq<SeatId>, order: OrderId) returns (affected: nat)
      ensures affected <= |ids| && (affected == |ids| <==> HeldBy(seats, event, ids, order))
    {
      affected := 0;
      var i := 0;
      while i < |ids|
        invariant 0 <= i <= |ids| && affected <= i
        invariant affected == i <==> HeldBy(seats, event, ids[..i], order)
      {
        var s := ids[i];
        assert ids[..i + 1] == ids[..i] + [s];
        assert HeldBy(seats, event, ids[..i + 1], order) ==> HeldBy(seats, event, ids[..i], order) by {
          assert forall j :: 0 <= j < i ==> ids[..i + 1][j] == ids[..i][j];
        }
        if s in seats && seats[s].event == event && seats[s].status == Held && seats[s].heldBy == Some(order) {
          affected := affected + 1;
        } else {
          assert ids[..i + 1][i] == s;
        }
        i := i + 1;
      }
      assert ids[..|ids|] == ids;
    }

    /** DEL, one key after another; a failure is logged and passed over. */
    method DeleteKeys(keys: seq<Text>, redisDown: set<Text>)
      modifies this`holds
      ensures holds == old(holds) - (Keys(keys) - redisDown)
    {
      var i := 0;
      while i < |keys|
        invariant 0 <= i <= |keys|
        invariant holds == old(holds) - (Keys(keys[..i]) - redisDown)
      {
        assert Keys(keys[..i + 1]) == Keys(keys[..i]) + {keys[i]};
        if keys[i] !in redisDown {
          holds := holds - {keys[i]};
        }
        i := i + 1;
      }
      assert keys[..|keys|] == keys;
    }

    /** ConfirmSeats (to SOLD) and ReleaseSeats (to AVAILABLE): the same steps, then the keys are deleted, as typed. */
    method EndHold(event: Option<Text>, raw: seq<Option<Text>>, order: Option<OrderId>, to: SeatStatus,
                   redisDown: set<Text>, fault: Fault) returns (r: Reply)
      requires Valid() && to != Held
      modifies this`seats, this`log, this`holds, this`keyed
      ensures Valid()
      ensures forall s :: s in old(keyed) && old(seats)[s].heldBy != order ==>
        s in keyed && keyed[s] == old(keyed)[s] && seats[s] == old(seats)[s]
      ensures !ValidSeatRequest(event, raw, order) ==> r == Broken && Tables() == old(Tables()) && holds == old(holds)
      ensures ValidSeatRequest(event, raw, order) ==>
        var done := Move(old(Tables()), event.value.id, Parsed(raw), order.value, to, Words(event.value, Typed(raw)));
        Tables() == (if fault == RolledBack then old(Tables()) else done.0) && r == if fault == Clean then done.1 else Broken
      ensures holds == if r == Accepted then old(holds) - (Keys(Typed(raw)) - redisDown) else old(holds)
    {
      var ok := ValidateSeatRequest(event, raw, order);
      if !ok {
        return Broken;
      }
      var ids := Parsed(raw);
      assert Distinct(ids);
      var keys := Typed(raw);
      r := MoveHeldSeats(event.value.id, ids, order.value, to, Words(event.value, keys), fault);
      if r != Accepted {
        return;
      }
      OtherKeysDeleted(seats, holds, keyed, raw, Keys(keys) - redisDown);
      DeleteKeys(keys, redisDown);
    }

    // ---- the sweeper ----

    /** The HELD seats whose key the sweep looked up and did not find. */
    ghost function Expired(now: int, redisDown: set<Text>): set<SeatId>
      reads this
    {
      set s | s in seats && seats[s].status == Held && Canonical(s) !in redisDown && !Live(holds, s, now, grace)
    }

    /** sweepExpiredHolds, with nothing else running between its statements. */
    method SweepExpiredHolds(now: int, redisDown: set<Text>, fault: Fault) returns (groups: seq<SeatEvent>)
      requires Valid()
      modifies this`seats, this`log, this`keyed
      ensures Valid()
      ensures Grouping(old(seats), old(Expired(now, redisDown)), groups)
      ensures Tables() == if fault == RolledBack then old(Tables()) else Sweep(old(Tables()), old(Expired(now, redisDown)), groups)
      ensures seats.Keys == old(seats).Keys && (fault == RolledBack ==> seats == old(seats))
      // a seat is left alone unless it is HELD and its key could be looked up and was gone
      ensures forall s :: s in seats && old(seats)[s].status != Held ==> seats[s] == old(seats)[s]
      ensures forall s :: s in seats && Canonical(s) in redisDown ==> seats[s] == old(seats)[s]
      ensures forall s :: s in seats && Canonical(s) in holds && now < holds[Canonical(s)] + grace ==> seats[s] == old(seats)[s]
      ensures fault != RolledBack ==> forall s :: s in seats && old(seats)[s].status == Held && Canonical(s) !in redisDown ==>
        (Canonical(s) !in holds || now >= holds[Canonical(s)] + grace) ==> seats[s] == Seat(old(seats)[s].event, Available, None)
      ensures forall s :: s in old(keyed) && now < old(keyed)[s] + 300_000 + grace ==> s in keyed && keyed[s] == old(keyed)[s]
      ensures fault != RolledBack && redisDown == {} && lastReserve + 300_000 + grace <= now ==>
        forall s :: s in seats ==> seats[s].status != Held
    {
      var expired := FindExpired(now, redisDown);
      // one UPDATE, which tells the rows it changed
      groups := GroupByEvent(seats, expired);
      assert Freed(seats, expired) == expired;
      if fault == RolledBack {
        return;
      }
      FreeExpired(expired, groups);
    }

    /** The sweep's transaction. */
    method FreeExpired(expired: set<SeatId>, groups: seq<SeatEvent>)
      requires Valid() && Freed(seats, expired) == expired && Grouping(seats, expired, groups)
      modifies this`seats, this`log, this`keyed
      ensures Valid() && seats == Marked(old(seats), expired, Available, None) && log == old(log) + groups && keyed == old(keyed) - expired
    {
      SweepKeepsLog(Tables(), expired, groups);
      MarkedKeys(seats, holds, keyed, expired, Available, None);
      seats, log := Marked(seats, expired, Available, None), log + groups;
      keyed := keyed - expired;
    }

    method FindExpired(now: int, redisDown: set<Text>) returns (expired: set<SeatId>)
      ensures expired == Expired(now, redisDown)
      ensures forall s :: s in expired <==>
        && s in seats && seats[s].status == Held && Canonical(s) !in redisDown
        && (Canonical(s) !in holds || now >= holds[Canonical(s)] + grace)
    {
      var heldIDs := set s | s in seats && seats[s].status == Held;
      expired := {};
      var todo := heldIDs;
      while todo != {}
        invariant todo <= heldIDs
        invariant expired == set s | s in heldIDs - todo && Canonical(s) !in redisDown && !Live(holds, s, now, grace)
        decreases todo
      {
        var id :| id in todo;
        todo := todo - {id};
        if Canonical(id) !in redisDown && !Live(holds, id, now, grace) {
          expired := expired + {id};
        }
      }
    }

    // ---- a hold lasts its time ----

    /** Any requests of other orders, and any sweeps that come before the TTL is over, leave these held seats alone. */
    method ServeOthers(ops: seq<Op>, order: OrderId, mine: set<SeatId>, t: int)
      requires Valid() && InTime(ops, lastReserve)
      requires forall s :: s in mine ==> s in keyed && keyed[s] == t && seats[s].heldBy == Some(order)
      requires forall i :: 0 <= i < |ops| ==> match ops[i]
        case Reserving(_, _, _, _, _, _) => true
        case Ending(_, _, other, _, _, _) => other != Some(order)
        case Sweeping(now, _, _) => now < t + 300_000
      modifies this
      ensures Valid()
      ensures forall s :: s in mine ==> s in old(seats) && s in seats && seats[s] == old(seats)[s]
    {
      var i := 0;
      while i < |ops|
        invariant 0 <= i <= |ops| && Valid() && InTime(ops[i..], lastReserve)
        invariant forall s :: s in mine ==> s in keyed && keyed[s] == t && s in old(seats) && seats[s] == old(seats)[s]
      {
        assert ops[i..][0] == ops[i] && ops[i..][1..] == ops[i + 1..];
        Serve(ops[i], order);
        i := i + 1;
      }
    }

    /** One request or sweep. */
    method Serve(op: Op, ghost order: OrderId)
      requires Valid() && (op.Reserving? ==> lastReserve <= op.now) && (op.Ending? ==> op.to != Held && op.order != Some(order))
      modifies this
      ensures Valid() && old(lastReserve) <= lastReserve && (lastReserve == old(lastReserve) || (op.Reserving? && lastReserve <= op.now))
      ensures forall s :: s in old(keyed) && old(seats)[s].heldBy == Some(order) && (op.Sweeping? ==> op.now < old(keyed)[s] + 300_000) ==>
        s in keyed && keyed[s] == old(keyed)[s] && seats[s] == old(seats)[s]
    {
      match op
      case Reserving(event, raw, other, now, redisDown, fault) =>
        var _ := ReserveSeats(event, raw, other, now, redisDown, fault);
      case Ending(event, raw, other, to, redisDown, fault) =>
        var _ := EndHold(event, raw, other, to, redisDown, fault);
      case Sweeping(now, redisDown, fault) =>
        var _ := SweepExpiredHolds(now, redisDown, fault);
    }

    /**
     * After an accepted reservation, nothing that other orders do and no sweep within the five minutes takes away a
     * seat whose key was set.
     */
    method HoldLasts(event: Option<Text>, raw: seq<Option<Text>>, order: OrderId, now: int, redisDown: set<Text>, ops: seq<Op>)
      returns (r: Reply)
      requires Valid() && lastReserve <= now && InTime(ops, now)
      requires forall i :: 0 <= i < |ops| ==> match ops[i]
        case Reserving(_, _, _, _, _, _) => true
        case Ending(_, _, other, _, _, _) => other != Some(order)
        case Sweeping(later, _, _) => later < now + 300_000
      modifies this
      ensures Valid()
      ensures r == Accepted ==> ValidSeatRequest(event, raw, Some(order)) && forall s :: s in Parsed(raw) && Canonical(s) !in redisDown ==>
        s in seats && seats[s] == Seat(event.value.id, Held, Some(order))
    {
      r := ReserveSeats(event, raw, Some(order), now, redisDown, Clean);
      if r == Accepted {
        var mine := set s | s in Ids(Parsed(raw)) && Canonical(s) !in redisDown;
        ServeOthers(ops, order, mine, now);
      }
    }
  }

  /** What else the server may be asked, or do by itself. */
  datatype Op =
    | Reserving(event: Option<Text>, raw: seq<Option<Text>>, order: Option<OrderId>, now: int, redisDown: set<Text>, fault: Fault)
    | Ending(event: Option<Text>, raw: seq<Option<Text>>, order: Option<OrderId>, to: SeatStatus, redisDown: set<Text>, fault: Fault)
    | Sweeping(now: int, redisDown: set<Text>, fault: Fault)

  /** Confirms and releases end a hold; reservations come in the order of their times. */
  ghost predicate InTime(ops: seq<Op>, from: int) {
    && (forall i :: 0 <= i < |ops| && ops[i].Ending? ==> ops[i].to != Held)
    && (forall i :: 0 <= i < |ops| && ops[i].Reserving? ==> from <= ops[i].now)
    && (forall i, j :: 0 <= i < j < |ops| && ops[i].Reserving? && ops[j].Reserving? ==> ops[i].now <= ops[j].now)
  }

  /** The lists hold exactly these seats, each once, under its own event. */
  ghost predicate Lists(seats: Table, done: set<SeatId>, byEvent: map<EventId, seq<SeatId>>) {
    && done <= seats.Keys
    && (forall e :: e in byEvent ==> byEvent[e] != [] && Distinct(byEvent[e]))
    && (forall e, s :: e in byEvent && s in byEvent[e] ==> s in done && seats[s].event == e)
    && (forall s :: s in done ==> seats[s].event in byEvent && s in byEvent[seats[s].event])
  }

  lemma ListsOneMore(seats: Table, done: set<SeatId>, byEvent: map<EventId, seq<SeatId>>, id: SeatId)
    requires Lists(seats, done, byEvent) && id in seats && id !in done
    ensures var e := seats[id].event;
      Lists(seats, done + {id}, byEvent[e := (if e in byEvent then byEvent[e] else []) + [id]])
  {
    var e := seats[id].event;
    var was := if e in byEvent then byEvent[e] else [];
    assert id !in was;
    assert forall s :: s in was + [id] <==> s in was || s == id;
  }

  /** The sweeper's event for one concert; its ids come out of the database. */
  function Released(e: EventId, ids: seq<SeatId>): SeatEvent {
    SeatEvent(e, ids, Available, Plain(e, ids))
  }

  /** Every event of the set has its list emitted, once. */
  ghost predicate Emitted(byEvent: map<EventId, seq<SeatId>>, done: set<EventId>, groups: seq<SeatEvent>) {
    && done <= byEvent.Keys
    && (forall i :: 0 <= i < |groups| ==> groups[i].event in done && groups[i] == Released(groups[i].event, byEvent[groups[i].event]))
    && (forall i, j :: 0 <= i < j < |groups| ==> groups[i].event != groups[j].event)
    && (forall e :: e in done ==> Released(e, byEvent[e]) in groups)
  }

  lemma EmittedOneMore(byEvent: map<EventId, seq<SeatId>>, done: set<EventId>, groups: seq<SeatEvent>, e: EventId)
    requires Emitted(byEvent, done, groups) && e in byEvent && e !in done
    ensures Emitted(byEvent, done + {e}, groups + [Released(e, byEvent[e])])
  {
  }

  lemma EmittedListsGroup(seats: Table, freed: set<SeatId>, byEvent: map<EventId, seq<SeatId>>, groups: seq<SeatEvent>)
    requires Lists(seats, freed, byEvent) && Emitted(byEvent, byEvent.Keys, groups)
    ensures Grouping(seats, freed, groups)
  {
    forall s | s in freed ensures exists i :: 0 <= i < |groups| && s in groups[i].seats {
      var e := seats[s].event;
      assert Released(e, byEvent[e]) in groups;
      var i :| 0 <= i < |groups| && groups[i] == Released(e, byEvent[e]);
      assert s in groups[i].seats;
    }
  }

  /** The grouping loops: each freed seat is appended to its event's list, then one event per list is emitted. */
  method GroupByEvent(seats: Table, freed: set<SeatId>) returns (groups: seq<SeatEvent>)
    requires freed <= seats.Keys
    ensures Grouping(seats, freed, groups)
  {
    var byEvent: map<EventId, seq<SeatId>> := map[];
    var todo: set<SeatId> := freed;
    while todo != {}
      invariant todo <= freed && Lists(seats, freed - todo, byEvent)
      decreases todo
    {
      var id :| id in todo;
      var e := seats[id].event;
      ListsOneMore(seats, freed - todo, byEvent, id);
      assert freed - (todo - {id}) == (freed - todo) + {id};
      byEvent := byEvent[e := (if e in byEvent then byEvent[e] else []) + [id]];
      todo := todo - {id};
    }
    assert freed - todo == freed;
    groups := [];
    var events: set<EventId> := byEvent.Keys;
    while events != {}
      invariant events <= byEvent.Keys && Emitted(byEvent, byEvent.Keys - events, groups)
      decreases events
    {
      var e :| e in events;
      EmittedOneMore(byEvent, byEvent.Keys - events, groups, e);
      assert byEvent.Keys - (events - {e}) == (byEvent.Keys - events) + {e};
      groups := groups + [Released(e, byEvent[e])];
      events := events - {e};
    }
    assert byEvent.Keys - events == byEvent.Keys;
    EmittedListsGroup(seats, freed, byEvent, groups);
  }
}
