/**
 * The seat table at row-lock granularity: statements lock and read one row at a time, several
 * transactions at once, and a transaction's writes appear only when it commits.
 *
 * A statement first picks its candidate rows from the table as committed when it starts. It then locks
 * them one by one, in any order, re-reading each row and re-testing its WHERE clause once it has the lock.
 */
module RowLocks {
  import opened Domain
  import opened SeatTable
  import opened Sums

  datatype Op =
    | OpReserve(event: EventId, ids: seq<SeatId>, order: OrderId, words: Words)
    | OpMove(event: EventId, ids: seq<SeatId>, order: OrderId, to: SeatStatus, words: Words)
    | OpSweep(expired: set<SeatId>)

  datatype Phase = Open | Committed | TurnedAway | Undone

  /** `todo` are candidate rows not yet locked; `seen` are the rows locked, as they were read. */
  datatype Tx = Tx(op: Op, phase: Phase, todo: set<SeatId>, seen: map<SeatId, Seat>)

  type TxId = nat

  datatype Db = Db(inv: Inventory, txs: map<TxId, Tx>)

  function Targets(op: Op): set<SeatId> {
    match op
    case OpReserve(_, ids, _, _) => Ids(ids)
    case OpMove(_, ids, _, _, _) => Ids(ids)
    case OpSweep(expired) => expired
  }

  /** The WHERE clause, beyond the list of ids. SELECT ... FOR UPDATE does not test the status. */
  predicate Where(op: Op, row: Seat) {
    match op
    case OpReserve(event, _, _, _) => row.event == event
    case OpMove(event, _, order, _, _) => row.event == event && row.status == Held && row.heldBy == Some(order)
    case OpSweep(_) => row.status == Held
  }

  function Candidates(t: Table, op: Op): set<SeatId> {
    set s | s in t && s in Targets(op) && Where(op, t[s])
  }

  ghost predicate ValidOp(op: Op) {
    match op
    case OpReserve(event, ids, _, words) => ids != [] && Distinct(ids) && Spells(words, event, ids)
    case OpMove(event, ids, _, to, words) => ids != [] && Distinct(ids) && to != Held && Spells(words, event, ids)
    case OpSweep(_) => true
  }

  // ---- steps ----

  datatype Step =
    | Begin(tx: TxId, op: Op)
    | LockRow(tx: TxId, seat: SeatId)
    | Finish(tx: TxId, groups: seq<SeatEvent>)
    | Abort(tx: TxId)

  ghost predicate Locked(d: Db, seat: SeatId) {
    exists t :: t in d.txs && d.txs[t].phase == Open && seat in d.txs[t].seen
  }

  /** What the transaction decides from the rows it locked and read, and from nothing else. */
  predicate Goes(tx: Tx) {
    match tx.op
    case OpReserve(_, ids, _, _) => |tx.seen| == |ids| && forall s :: s in tx.seen ==> tx.seen[s].status == Available
    case OpMove(_, ids, _, _, _) => |tx.seen| == |ids|
    case OpSweep(_) => true
  }

  /** The writes that become visible at commit. The reserve UPDATE filters on nothing but the ids. */
  function Written(inv: Inventory, tx: Tx, groups: seq<SeatEvent>): Inventory {
    match tx.op
    case OpReserve(event, ids, order, words) =>
      Inventory(Marked(inv.seats, Ids(ids), Held, Some(order)), inv.log + [SeatEvent(event, ids, Held, words)])
    case OpMove(event, ids, order, to, words) =>
      Inventory(Marked(inv.seats, tx.seen.Keys, to, None), inv.log + [SeatEvent(event, ids, to, words)])
    case OpSweep(_) =>
      Inventory(Marked(inv.seats, tx.seen.Keys, Available, None), inv.log + groups)
  }

  ghost predicate Enabled(d: Db, st: Step) {
    match st
    case Begin(t, op) => t !in d.txs && ValidOp(op)
    case LockRow(t, seat) => t in d.txs && d.txs[t].phase == Open && seat in d.txs[t].todo && seat in d.inv.seats && !Locked(d, seat)
    case Finish(t, groups) =>
      && t in d.txs && d.txs[t].phase == Open && d.txs[t].todo == {}
      && (d.txs[t].op.OpSweep? ==> Grouping(d.inv.seats, d.txs[t].seen.Keys, groups))
    case Abort(t) => t in d.txs && d.txs[t].phase == Open
  }

  ghost function Do(d: Db, st: Step): Db
    requires Enabled(d, st)
  {
    match st
    case Begin(t, op) => d.(txs := d.txs[t := Tx(op, Open, Candidates(d.inv.seats, op), map[])])
    case LockRow(t, seat) =>
      var tx := d.txs[t];
      var row := d.inv.seats[seat];
      d.(txs := d.txs[t := tx.(todo := tx.todo - {seat}, seen := if Where(tx.op, row) then tx.seen[seat := row] else tx.seen)])
    case Finish(t, groups) =>
      var tx := d.txs[t];
      if Goes(tx) then Db(Written(d.inv, tx, groups), d.txs[t := tx.(phase := Committed)])
      else d.(txs := d.txs[t := tx.(phase := TurnedAway)])
    case Abort(t) => d.(txs := d.txs[t := d.txs[t].(phase := Undone)])
  }

  ghost predicate Next(d: Db, e: Db) {
    exists st :: Enabled(d, st) && e == Do(d, st)
  }

  ghost predicate Linked(run: seq<Db>, i: int)
    requires 0 < i < |run|
  {
    Next(run[i - 1], run[i])
  }

  /** A run from any table, with no transaction open yet. */
  ghost predicate IsRun(run: seq<Db>) {
    run != [] && run[0].txs == map[] && forall i :: 0 < i < |run| ==> Linked(run, i)
  }

  // ---- the invariant ----

  /**
   * A locked row is still what it was when it was read, and meets the WHERE clause. A reservation's
   * candidates are all the rows it asks for that exist under its event.
   */
  ghost predicate ReadsStand(inv: Inventory, tx: Tx) {
    && ValidOp(tx.op)
    && tx.todo <= Targets(tx.op)
    && (forall s :: s in tx.seen ==> s in Targets(tx.op) && s in inv.seats && tx.seen[s] == inv.seats[s] && Where(tx.op, tx.seen[s]))
    && (tx.op.OpReserve? ==> tx.todo + tx.seen.Keys == Candidates(inv.seats, tx.op))
  }

  ghost predicate TxStands(d: Db, t: TxId) {
    t in d.txs && d.txs[t].phase == Open ==> ReadsStand(d.inv, d.txs[t])
  }

  ghost predicate TxsApart(d: Db, t: TxId, u: TxId) {
    t in d.txs && u in d.txs && t != u && d.txs[t].phase == Open && d.txs[u].phase == Open ==>
      d.txs[t].seen.Keys !! d.txs[u].seen.Keys
  }

  ghost predicate Inv(d: Db) {
    (forall t :: TxStands(d, t)) && (forall t, u :: TxsApart(d, t, u))
  }

  lemma AllSeen(ids: seq<SeatId>, seen: map<SeatId, Seat>)
    requires Distinct(ids) && seen.Keys <= Ids(ids)
    ensures |seen| == |ids| <==> seen.Keys == Ids(ids)
  {
    IdsCount(ids);
    assert |seen.Keys| == |seen|;
    if seen.Keys != Ids(ids) {
      SmallerSubset(seen.Keys, Ids(ids));
    }
  }

  // ---- refinement ----

  /** Some indivisible reserve, confirm, release or sweep, accepted. */
  ghost predicate AtomicStep(a: Inventory, b: Inventory) {
    || (exists event, ids, order, words :: Reserve(a, event, ids, order, words) == (b, Accepted))
    || (exists event, ids, order, to, words :: Move(a, event, ids, order, to, words) == (b, Accepted))
    || (exists expired, groups :: Grouping(a.seats, Freed(a.seats, expired), groups) && b == Sweep(a, expired, groups))
  }

  /** A commit does to the table, as it is at that instant, exactly what the indivisible operation would. */
  lemma CommitIsAtomic(d: Db, t: TxId, groups: seq<SeatEvent>)
    requires Inv(d) && Enabled(d, Finish(t, groups)) && Goes(d.txs[t])
    ensures match d.txs[t].op
      case OpReserve(event, ids, order, words) => Reserve(d.inv, event, ids, order, words) == (Written(d.inv, d.txs[t], groups), Accepted)
      case OpMove(event, ids, order, to, words) => Move(d.inv, event, ids, order, to, words) == (Written(d.inv, d.txs[t], groups), Accepted)
      case OpSweep(_) => Freed(d.inv.seats, d.txs[t].seen.Keys) == d.txs[t].seen.Keys
  {
    var tx := d.txs[t];
    assert TxStands(d, t);
    if !tx.op.OpSweep? {
      AllSeen(tx.op.ids, tx.seen);
      forall i | 0 <= i < |tx.op.ids| ensures tx.op.ids[i] in tx.seen { assert tx.op.ids[i] in Ids(tx.op.ids); }
    }
  }

  lemma FreeSeatsGo(d: Db, t: TxId, groups: seq<SeatEvent>)
    requires Inv(d) && Enabled(d, Finish(t, groups)) && d.txs[t].op.OpReserve?
    requires Reservable(d.inv.seats, d.txs[t].op.event, d.txs[t].op.ids)
    ensures Goes(d.txs[t])
  {
    var tx := d.txs[t];
    assert TxStands(d, t);
    AllSeen(tx.op.ids, tx.seen);
    forall s | s in Ids(tx.op.ids) ensures s in tx.seen && tx.seen[s].status == Available {
      var i :| 0 <= i < |tx.op.ids| && tx.op.ids[i] == s;
      assert s in Candidates(d.inv.seats, tx.op);
    }
    assert tx.seen.Keys == Ids(tx.op.ids);
  }

  /** A reservation goes through exactly when the indivisible test, on the table as it is then, would let it. */
  lemma ReserveDecidesRight(d: Db, t: TxId, groups: seq<SeatEvent>)
    requires Inv(d) && Enabled(d, Finish(t, groups)) && d.txs[t].op.OpReserve?
    ensures Reserve(d.inv, d.txs[t].op.event, d.txs[t].op.ids, d.txs[t].op.order, d.txs[t].op.words)
      == (Do(d, Finish(t, groups)).inv, if Goes(d.txs[t]) then Accepted else Refused)
  {
    if Goes(d.txs[t]) {
      CommitIsAtomic(d, t, groups);
    } else if Reservable(d.inv.seats, d.txs[t].op.event, d.txs[t].op.ids) {
      FreeSeatsGo(d, t, groups);
    }
  }

  // ---- every step keeps the invariant ----

  /** Rows keep their event, and a row that another open transaction has locked is not written. */
  lemma CommitSparesOthers(d: Db, t: TxId, groups: seq<SeatEvent>, u: TxId)
    requires Inv(d) && Enabled(d, Finish(t, groups)) && Goes(d.txs[t])
    requires u in d.txs && u != t && d.txs[u].phase == Open
    ensures ReadsStand(Written(d.inv, d.txs[t], groups), d.txs[u])
  {
    assert TxStands(d, t) && TxStands(d, u) && TxsApart(d, t, u);
    WritesOnlySeen(d.inv, d.txs[t], groups);
    StandsBeside(d.inv, Written(d.inv, d.txs[t], groups), d.txs[t].seen.Keys, d.txs[u]);
  }

  /** Nothing changes but these rows, and they keep their event. */
  ghost predicate ChangesOnly(a: Table, b: Table, rows: set<SeatId>) {
    && a.Keys == b.Keys
    && (forall s :: s in a ==> b[s].event == a[s].event)
    && (forall s :: s in a && s !in rows ==> b[s] == a[s])
  }

  lemma WritesOnlySeen(inv: Inventory, tx: Tx, groups: seq<SeatEvent>)
    requires ReadsStand(inv, tx) && Goes(tx)
    ensures ChangesOnly(inv.seats, Written(inv, tx, groups).seats, tx.seen.Keys)
  {
    if tx.op.OpReserve? { AllSeen(tx.op.ids, tx.seen); }
  }

  lemma StandsBeside(a: Inventory, b: Inventory, rows: set<SeatId>, tx: Tx)
    requires ChangesOnly(a.seats, b.seats, rows) && ReadsStand(a, tx) && tx.seen.Keys !! rows
    ensures ReadsStand(b, tx)
  {
    if tx.op.OpReserve? { assert Candidates(b.seats, tx.op) == Candidates(a.seats, tx.op); }
  }

  lemma BeginInv(d: Db, t: TxId, op: Op)
    requires Inv(d) && Enabled(d, Begin(t, op))
    ensures Inv(Do(d, Begin(t, op)))
  {
    var e := Do(d, Begin(t, op));
    assert ReadsStand(d.inv, Tx(op, Open, Candidates(d.inv.seats, op), map[]));
    forall u ensures TxStands(e, u) { assert TxStands(d, u); }
    forall u, v ensures TxsApart(e, u, v) { assert TxsApart(d, u, v); }
  }

  /** What locking one more row does to the transaction. */
  ghost function WithRow(tx: Tx, seat: SeatId, row: Seat): Tx {
    tx.(todo := tx.todo - {seat}, seen := if Where(tx.op, row) then tx.seen[seat := row] else tx.seen)
  }

  lemma LockStands(inv: Inventory, tx: Tx, seat: SeatId)
    requires ReadsStand(inv, tx) && seat in tx.todo && seat in inv.seats
    ensures ReadsStand(inv, WithRow(tx, seat, inv.seats[seat]))
  {
  }

  lemma LockInv(d: Db, t: TxId, seat: SeatId)
    requires Inv(d) && Enabled(d, LockRow(t, seat))
    ensures Inv(Do(d, LockRow(t, seat)))
  {
    var e := Do(d, LockRow(t, seat));
    assert TxStands(d, t);
    LockStands(d.inv, d.txs[t], seat);
    assert e.txs == d.txs[t := WithRow(d.txs[t], seat, d.inv.seats[seat])];
    forall u ensures TxStands(e, u) { assert TxStands(d, u); }
    forall u, v ensures TxsApart(e, u, v) {
      assert TxsApart(d, u, v);
      assert u in d.txs && d.txs[u].phase == Open ==> seat !in d.txs[u].seen;
      assert v in d.txs && d.txs[v].phase == Open ==> seat !in d.txs[v].seen;
    }
  }

  lemma FinishInv(d: Db, t: TxId, groups: seq<SeatEvent>)
    requires Inv(d) && Enabled(d, Finish(t, groups))
    ensures Inv(Do(d, Finish(t, groups)))
  {
    var e := Do(d, Finish(t, groups));
    forall u ensures TxStands(e, u) {
      assert TxStands(d, u);
      if Goes(d.txs[t]) && u in d.txs && u != t && d.txs[u].phase == Open { CommitSparesOthers(d, t, groups, u); }
    }
    forall u, v ensures TxsApart(e, u, v) { assert TxsApart(d, u, v); }
  }

  lemma AbortInv(d: Db, t: TxId)
    requires Inv(d) && Enabled(d, Abort(t))
    ensures Inv(Do(d, Abort(t)))
  {
    var e := Do(d, Abort(t));
    forall u ensures TxStands(e, u) { assert TxStands(d, u); }
    forall u, v ensures TxsApart(e, u, v) { assert TxsApart(d, u, v); }
  }

  lemma StepInv(d: Db, st: Step)
    requires Inv(d) && Enabled(d, st)
    ensures Inv(Do(d, st))
  {
    match st
    case Begin(t, op) => BeginInv(d, t, op);
    case LockRow(t, seat) => LockInv(d, t, seat);
    case Finish(t, groups) => FinishInv(d, t, groups);
    case Abort(t) => AbortInv(d, t);
  }

  lemma NextInv(d: Db, e: Db)
    requires Inv(d) && Next(d, e)
    ensures Inv(e)
  {
    var st :| Enabled(d, st) && e == Do(d, st);
    StepInv(d, st);
  }

  lemma {:induction false} RunInv(run: seq<Db>, i: nat)
    requires IsRun(run) && i < |run|
    ensures Inv(run[i])
  {
    if i > 0 {
      RunInv(run, i - 1);
      assert Linked(run, i);
      NextInv(run[i - 1], run[i]);
    }
  }

  lemma StepRefines(d: Db, st: Step)
    requires Inv(d) && Enabled(d, st)
    ensures Do(d, st).inv == d.inv || AtomicStep(d.inv, Do(d, st).inv)
  {
    if st.Finish? && Goes(d.txs[st.tx]) { CommitRefines(d, st.tx, st.groups); }
  }

  lemma CommitRefines(d: Db, t: TxId, groups: seq<SeatEvent>)
    requires Inv(d) && Enabled(d, Finish(t, groups)) && Goes(d.txs[t])
    ensures AtomicStep(d.inv, Written(d.inv, d.txs[t], groups))
  {
    CommitIsAtomic(d, t, groups);
    var after := Written(d.inv, d.txs[t], groups);
    match d.txs[t].op
    case OpReserve(event, ids, order, words) => assert Reserve(d.inv, event, ids, order, words) == (after, Accepted);
    case OpMove(event, ids, order, to, words) => assert Move(d.inv, event, ids, order, to, words) == (after, Accepted);
    case OpSweep(_) => assert after == Sweep(d.inv, d.txs[t].seen.Keys, groups);
  }

  /**
   * Any interleaving of lock, read, write and commit steps shows the rest of the system nothing but a
   * sequence of indivisible operations.
   */
  lemma LockingRefinesAtomic(run: seq<Db>, i: nat)
    requires IsRun(run) && 0 < i < |run|
    ensures run[i].inv == run[i - 1].inv || AtomicStep(run[i - 1].inv, run[i].inv)
  {
    RunInv(run, i - 1);
    assert Linked(run, i);
    var st :| Enabled(run[i - 1], st) && run[i] == Do(run[i - 1], st);
    StepRefines(run[i - 1], st);
  }

  // ---- refusals of confirm and release ----

  ghost predicate WouldRefuse(d: Db, op: Op)
    requires op.OpMove?
  {
    !HeldBy(d.inv.seats, op.event, op.ids, op.order)
  }

  lemma NotACandidate(d: Db, op: Op, s: SeatId)
    requires op.OpMove? && s in Ids(op.ids) && s !in Candidates(d.inv.seats, op)
    ensures WouldRefuse(d, op)
  {
    var i :| 0 <= i < |op.ids| && op.ids[i] == s;
  }

  /** At some moment up to i, while it was open, transaction t would rightly have been refused. */
  ghost predicate MetRefusal(run: seq<Db>, i: nat, t: TxId, op: Op)
    requires op.OpMove? && i < |run|
  {
    exists k :: 0 <= k <= i && t in run[k].txs && run[k].txs[t].op == op && WouldRefuse(run[k], op)
  }

  lemma MetEarlier(run: seq<Db>, i: nat, j: nat, t: TxId, op: Op)
    requires op.OpMove? && i <= j < |run| && MetRefusal(run, i, t, op)
    ensures MetRefusal(run, j, t, op)
  {
    var k :| 0 <= k <= i && t in run[k].txs && run[k].txs[t].op == op && WouldRefuse(run[k], op);
    assert 0 <= k <= j;
  }

  ghost predicate Covered(tx: Tx)
    requires tx.op.OpMove?
  {
    Ids(tx.op.ids) <= tx.todo + tx.seen.Keys
  }

  /** A step uncovers a seat only by finding its row changed, which is a moment to refuse. */
  lemma StaysCovered(d: Db, st: Step, t: TxId)
    requires Enabled(d, st) && t in d.txs && d.txs[t].op.OpMove? && Covered(d.txs[t])
    ensures Do(d, st).txs[t].op == d.txs[t].op && (Covered(Do(d, st).txs[t]) || WouldRefuse(Do(d, st), d.txs[t].op))
  {
    if st.LockRow? && st.tx == t && !Where(d.txs[t].op, d.inv.seats[st.seat]) && st.seat in Ids(d.txs[t].op.ids) {
      NotACandidate(Do(d, st), d.txs[t].op, st.seat);
    }
  }

  lemma BeginsCovered(d: Db, t: TxId, op: Op)
    requires Enabled(d, Begin(t, op)) && op.OpMove?
    ensures var e := Do(d, Begin(t, op)); Covered(e.txs[t]) || WouldRefuse(e, op)
  {
    var e := Do(d, Begin(t, op));
    if !Covered(e.txs[t]) {
      var s :| s in Ids(op.ids) && s !in e.txs[t].todo;
      NotACandidate(e, op, s);
    }
  }

  /** While a confirm or release is open, either all its seats are locked or waiting, or it met a moment of refusal. */
  lemma {:induction false} MissedRow(run: seq<Db>, i: nat, t: TxId)
    requires IsRun(run) && i < |run| && t in run[i].txs && run[i].txs[t].op.OpMove?
    ensures Covered(run[i].txs[t]) || MetRefusal(run, i, t, run[i].txs[t].op)
  {
    if i > 0 {
      var d := run[i - 1];
      assert Linked(run, i);
      var st :| Enabled(d, st) && run[i] == Do(d, st);
      if t !in d.txs {
        BeginsCovered(d, t, run[i].txs[t].op);
      } else {
        assert d.txs[t].op == run[i].txs[t].op;
        MissedRow(run, i - 1, t);
        if Covered(d.txs[t]) { StaysCovered(d, st, t); } else { MetEarlier(run, i - 1, i, t, d.txs[t].op); }
      }
    }
  }

  /** A confirm or release that is turned away was right at some moment while it was open. */
  lemma RefusedMoveIsRight(run: seq<Db>, i: nat, t: TxId, groups: seq<SeatEvent>)
    requires IsRun(run) && i < |run| && Enabled(run[i], Finish(t, groups)) && run[i].txs[t].op.OpMove? && !Goes(run[i].txs[t])
    ensures MetRefusal(run, i, t, run[i].txs[t].op)
  {
    RunInv(run, i);
    MissedRow(run, i, t);
    assert TxStands(run[i], t);
    AllSeen(run[i].txs[t].op.ids, run[i].txs[t].seen);
  }
}
