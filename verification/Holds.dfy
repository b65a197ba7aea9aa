/** Who holds a seat, and what a request turned away by its idempotency key leaves behind: nothing. */
module Holds {
  import opened Domain
  import opened SeatTable
  import opened Purchase
  import opened PurchaseInvariant
  import S = Saga
  import PT = PurchaseTheorems

  /** The attempt asked for this seat under its own event, and its reservation was carried out and not refused. */
  ghost predicate MayHold(a: S.Attempt, k: SeatId, event: EventId) {
    && a.reserve.Answered? && a.reserve != S.Answered(Refused)
    && k in a.req.seats && a.req.event == event
  }

  ghost predicate HolderKnown(s: State, k: SeatId)
    requires k in s.inv.seats && s.inv.seats[k].heldBy.Some?
  {
    var o := s.inv.seats[k].heldBy.value;
    o in s.attempts && MayHold(s.attempts[o], k, s.inv.seats[k].event)
  }

  ghost predicate HoldersKnown(s: State) {
    forall k :: k in s.inv.seats && s.inv.seats[k].heldBy.Some? ==> HolderKnown(s, k)
  }

  /** A row may lose its holder, and otherwise stays as it was. */
  ghost predicate NoNewHolder(s: Table, t: Table) {
    forall k :: k in t && t[k].heldBy.Some? ==> k in s && s[k].heldBy == t[k].heldBy && s[k].event == t[k].event
  }

  lemma HoldersStay(s: State, t: State)
    requires HoldersKnown(s) && PT.AttemptsPersist(s, t) && NoNewHolder(s.inv.seats, t.inv.seats)
    ensures HoldersKnown(t)
  {
    forall k | k in t.inv.seats && t.inv.seats[k].heldBy.Some? ensures HolderKnown(t, k) {
      assert HolderKnown(s, k);
      var o := t.inv.seats[k].heldBy.value;
      assert PT.AttemptPersists(s.attempts[o], t.attempts[o]);
    }
  }

  lemma ReserveHolders(s: State, o: OrderId, fault: Fault)
    requires HoldersKnown(s) && o in s.attempts && s.attempts[o].reserve == S.Sent
    ensures HoldersKnown(Executed(s, o, S.Reserve, fault))
  {
    var t := Executed(s, o, S.Reserve, fault);
    var req := s.attempts[o].req;
    PT.ExecuteAttempts(s, o, S.Reserve, fault);
    forall k | k in t.inv.seats && t.inv.seats[k].heldBy.Some? ensures HolderKnown(t, k) {
      var p := t.inv.seats[k].heldBy.value;
      if t.inv.seats[k] == s.inv.seats[k] {
        assert HolderKnown(s, k);
        assert PT.AttemptPersists(s.attempts[p], t.attempts[p]);
      } else {
        assert k in Ids(req.seats) && p == o;
      }
    }
  }

  lemma ExecuteHolders(s: State, o: OrderId, c: S.Call, fault: Fault)
    requires HoldersKnown(s) && o in s.attempts && S.FlightOf(s.attempts[o], c) == S.Sent
    ensures HoldersKnown(Executed(s, o, c, fault))
  {
    if c == S.Reserve {
      ReserveHolders(s, o, fault);
    } else {
      PT.ExecuteAttempts(s, o, c, fault);
      HoldersStay(s, Executed(s, o, c, fault));
    }
  }

  lemma StepHolders(s: State, st: Step)
    requires AttemptsSound(s) && HoldersKnown(s) && Enabled(s, st)
    ensures HoldersKnown(Do(s, st))
  {
    match st
    case Execute(o, c, fault) => ExecuteHolders(s, o, c, fault);
    case _ =>
      PT.StepAttempts(s, st);
      HoldersStay(s, Do(s, st));
  }

  lemma NextHolders(s: State, t: State)
    requires AttemptsSound(s) && HoldersKnown(s) && Next(s, t)
    ensures HoldersKnown(t)
  {
    var st :| Enabled(s, st) && t == Do(s, st);
    StepHolders(s, st);
  }

  /** In every reachable state a HELD seat is held by an attempt that asked for it and whose reservation went through. */
  lemma {:induction false} RunHolders(run: seq<State>, i: nat)
    requires IsRun(run) && i < |run|
    ensures HoldersKnown(run[i])
  {
    if i > 0 {
      RunHolders(run, i - 1);
      RunInv(run, i - 1);
      assert Linked(run, i);
      NextHolders(run[i - 1], run[i]);
    }
  }

  /** No table names the order, and no call after the insert was sent for it. */
  ghost predicate NoTrace(s: State, o: OrderId) {
    && o !in s.orders && Story(s.outbox, o) == []
    && (forall m :: 0 <= m < |s.payments| ==> s.payments[m].order != o)
    && (forall m :: 0 <= m < |s.sales| ==> s.sales[m].order != o)
    && (forall k :: k in s.inv.seats ==> s.inv.seats[k].heldBy != Some(o))
    && o in s.attempts
    && var a := s.attempts[o]; a.reserve == a.charge == a.confirm == a.release == a.record == S.Unsent
  }

  lemma RefusedHasNoTrace(s: State, o: OrderId)
    requires Inv(s) && HoldersKnown(s) && o in s.attempts && s.attempts[o].insert == S.Answered(Refused)
    ensures NoTrace(s, o)
  {
    assert AttemptSound(s, o) && RowOk(s, o);
    assert Story(s.outbox, o) == ExpectedStory(s, o);
    forall m | 0 <= m < |s.payments| ensures s.payments[m].order != o { assert PaidBy(s, m); }
    forall m | 0 <= m < |s.sales| ensures s.sales[m].order != o { assert SoldBy(s, m); }
    forall k | k in s.inv.seats ensures s.inv.seats[k].heldBy != Some(o) {
      assert s.inv.seats[k].heldBy.Some? ==> HolderKnown(s, k);
    }
  }

  /**
   * An attempt whose insert the unique index refused, which is every attempt that is answered by replay, leaves no
   * trace in any table and sends no further call, then or at any later time.
   */
  lemma ReplaysLeaveNoTrace(run: seq<State>, i: nat, j: nat, o: OrderId)
    requires IsRun(run) && i <= j < |run| && o in run[i].attempts
    requires run[i].attempts[o].insert == S.Answered(Refused) || run[i].attempts[o].pc == S.Replaying
    ensures NoTrace(run[j], o)
  {
    RunInv(run, i);
    assert AttemptSound(run[i], o);
    PT.NothingIsUndone(run, i, j);
    assert PT.AttemptPersists(run[i].attempts[o], run[j].attempts[o]);
    RunInv(run, j);
    RunHolders(run, j);
    RefusedHasNoTrace(run[j], o);
  }

  /** A confirm changes only seats that its own attempt asked for, reserved and still holds. */
  lemma OnlyTheHolderSells(run: seq<State>, i: nat, o: OrderId, fault: Fault, k: SeatId)
    requires IsRun(run) && i < |run| && o in run[i].attempts && run[i].attempts[o].confirm == S.Sent && k in run[i].inv.seats
    requires var t := Executed(run[i], o, S.Confirm, fault); k in t.inv.seats && t.inv.seats[k] != run[i].inv.seats[k]
    ensures run[i].inv.seats[k].heldBy == Some(o) && MayHold(run[i].attempts[o], k, run[i].inv.seats[k].event)
  {
    RunHolders(run, i);
    var req := run[i].attempts[o].req;
    assert k in Ids(req.seats);
    assert HolderKnown(run[i], k);
  }
}
