/**
 * The transactional outbox relay: several publisher replicas send unpublished rows to Kafka
 * (pkg/outbox/publisher.go, pkg/kafka/producer.go).
 */
module Relay {
  import opened Domain

  const BATCH_LIMIT := 100
  const UNKNOWN_TOPIC_ATTEMPTS := 8

  /** A Kafka record: the outbox row's id travels as the message-id header, its payload as the value. */
  datatype Msg<T> = Msg(id: nat, value: T)

  /** Where a replica is in publishBatch; the batch is the rows its transaction has locked. */
  datatype Replica =
    | Idle
    | Locked(batch: seq<nat>, writes: nat)
    | Failing(batch: seq<nat>)
    | Sent(batch: seq<nat>)

  /**
   * `onTheWay` are copies Kafka may still store after their sender has given up or died. `wasted` and `failed` are
   * history: copies stored without leading to "published", and write calls that may have made such a copy, by row.
   */
  datatype State<T> = State(rows: seq<T>, published: set<nat>, replicas: map<nat, Replica>, topic: seq<Msg<T>>,
                            onTheWay: multiset<nat>, wasted: multiset<nat>, failed: multiset<nat>)

  function Init<T>(): State<T> {
    State([], {}, map[], [], multiset{}, multiset{}, multiset{})
  }

  datatype WriteResult = Stored | UnknownTopic | OtherError

  datatype Step<T> =
    | AddRows(added: seq<T>)
    | Select(replica: nat, batch: seq<nat>)
    | Write(replica: nat, stored: seq<nat>, late: seq<nat>, result: WriteResult)
    | Commit(replica: nat)
    | Abort(replica: nat, late: seq<nat>)
    | LandLate(id: nat)

  function BatchOf(r: Replica): seq<nat> {
    if r.Idle? then [] else r.batch
  }

  function At(replicas: map<nat, Replica>, r: nat): Replica {
    if r in replicas then replicas[r] else Idle
  }

  ghost predicate LockedByAny(replicas: map<nat, Replica>, id: nat) {
    exists r :: r in replicas && id in BatchOf(replicas[r])
  }

  /** FOR UPDATE SKIP LOCKED: unpublished rows that nobody holds, each once. */
  ghost predicate Selectable<T>(s: State<T>, batch: seq<nat>) {
    && 0 < |batch| <= BATCH_LIMIT && Distinct(batch)
    && forall i :: 0 <= i < |batch| ==> batch[i] < |s.rows| && batch[i] !in s.published && !LockedByAny(s.replicas, batch[i])
  }

  /** Each of these rows is one of the batch, and is named once. */
  ghost predicate Among(ids: seq<nat>, batch: seq<nat>) {
    Distinct(ids) && forall i :: 0 <= i < |ids| ==> ids[i] in batch
  }

  ghost predicate Enabled<T>(s: State<T>, st: Step<T>) {
    match st
    case AddRows(_) => true
    case Select(r, batch) => At(s.replicas, r).Idle? && Selectable(s, batch)
    case Write(r, stored, late, result) =>
      && At(s.replicas, r).Locked? && s.replicas[r].writes < UNKNOWN_TOPIC_ATTEMPTS
      && Among(stored + late, s.replicas[r].batch) && (forall i :: 0 <= i < |stored| ==> stored[i] < |s.rows|)
      && (result == Stored ==> late == [] && multiset(stored) == multiset(s.replicas[r].batch))
    case Commit(r) => At(s.replicas, r).Sent?
    case Abort(r, late) =>
      !At(s.replicas, r).Idle? && Among(late, s.replicas[r].batch) && (late != [] ==> s.replicas[r].Locked?)
    case LandLate(id) => id in s.onTheWay && id < |s.rows|
  }

  function Messages<T>(rows: seq<T>, ids: seq<nat>): seq<Msg<T>>
    requires forall i :: 0 <= i < |ids| ==> ids[i] < |rows|
  {
    seq(|ids|, i requires 0 <= i < |ids| => Msg(ids[i], rows[ids[i]]))
  }

  /** The replica's next place in publishBatch after one write call. */
  function AfterWrite(r: Replica, result: WriteResult): Replica
    requires r.Locked?
  {
    match result
    case Stored => Sent(r.batch)
    case UnknownTopic => Locked(r.batch, r.writes + 1)
    case OtherError => Failing(r.batch)
  }

  ghost function Do<T>(s: State<T>, st: Step<T>): State<T>
    requires Enabled(s, st)
  {
    match st
    case AddRows(added) => s.(rows := s.rows + added)
    case Select(r, batch) => s.(replicas := s.replicas[r := Locked(batch, 0)])
    case Write(r, stored, late, result) =>
      var sent := s.(topic := s.topic + Messages(s.rows, stored), replicas := s.replicas[r := AfterWrite(s.replicas[r], result)]);
      if result == Stored then sent
      else sent.(onTheWay := s.onTheWay + multiset(late), wasted := s.wasted + multiset(stored),
                 failed := s.failed + multiset(s.replicas[r].batch))
    case Commit(r) =>
      s.(published := s.published + (set id | id in s.replicas[r].batch), replicas := s.replicas[r := Idle])
    case Abort(r, late) =>
      var freed := s.(replicas := s.replicas[r := Idle]);
      if s.replicas[r].Sent? then
        freed.(wasted := s.wasted + multiset(s.replicas[r].batch), failed := s.failed + multiset(s.replicas[r].batch))
      else freed.(onTheWay := s.onTheWay + multiset(late), failed := s.failed + multiset(late))
    case LandLate(id) =>
      s.(topic := s.topic + [Msg(id, s.rows[id])], onTheWay := s.onTheWay - multiset{id}, wasted := s.wasted + multiset{id})
  }

  // ---- the invariant ----

  function Copies<T>(topic: seq<Msg<T>>, id: nat): nat {
    if topic == [] then 0
    else Copies(topic[..|topic| - 1], id) + (if topic[|topic| - 1].id == id then 1 else 0)
  }

  ghost predicate JustSent(replicas: map<nat, Replica>, id: nat) {
    exists r :: r in replicas && replicas[r].Sent? && id in replicas[r].batch
  }

  ghost predicate BatchesOk<T>(s: State<T>) {
    && (forall r :: r in s.replicas ==> Distinct(BatchOf(s.replicas[r])))
    && (forall r, i :: r in s.replicas && 0 <= i < |BatchOf(s.replicas[r])| ==>
          BatchOf(s.replicas[r])[i] < |s.rows| && BatchOf(s.replicas[r])[i] !in s.published)
    && (forall q, r, id :: q in s.replicas && r in s.replicas && id in BatchOf(s.replicas[q]) && id in BatchOf(s.replicas[r]) ==> q == r)
    && (forall id :: id in s.published ==> id < |s.rows|)
  }

  /** The log holds committed rows only, unaltered. */
  ghost predicate TopicFaithful<T>(s: State<T>) {
    forall i :: 0 <= i < |s.topic| ==> s.topic[i].id < |s.rows| && s.topic[i].value == s.rows[s.topic[i].id]
  }

  /** Every copy in the log is accounted for, exactly. */
  ghost predicate CopiesAccounted<T>(s: State<T>) {
    forall id: nat :: CopyAccounted(s, id)
  }

  ghost predicate CopyAccounted<T>(s: State<T>, id: nat) {
    Copies(s.topic, id) == s.wasted[id] + (if id in s.published then 1 else 0) + (if JustSent(s.replicas, id) then 1 else 0)
  }

  /** A copy that was wasted or is on its way comes from a write call that failed, one copy per call at most. */
  ghost predicate WasteAccounted<T>(s: State<T>) {
    forall id: nat :: WasteOf(s, id)
  }

  ghost predicate WasteOf<T>(s: State<T>, id: nat) {
    s.wasted[id] + s.onTheWay[id] <= s.failed[id] && (id in s.onTheWay ==> id < |s.rows|)
  }

  ghost predicate Inv<T>(s: State<T>) {
    BatchesOk(s) && TopicFaithful(s) && CopiesAccounted(s) && WasteAccounted(s)
  }

  lemma {:induction false} CopiesAppend<T>(topic: seq<Msg<T>>, more: seq<Msg<T>>, id: nat)
    ensures Copies(topic + more, id) == Copies(topic, id) + Copies(more, id)
  {
    if more == [] {
      assert topic + more == topic;
    } else {
      var front := more[..|more| - 1];
      CopiesAppend(topic, front, id);
      assert (topic + more)[..|topic + more| - 1] == topic + front;
    }
  }

  lemma {:induction false} CopiesOfMessages<T>(rows: seq<T>, ids: seq<nat>, id: nat)
    requires forall i :: 0 <= i < |ids| ==> ids[i] < |rows|
    ensures Copies(Messages(rows, ids), id) == multiset(ids)[id]
  {
    if ids != [] {
      var front := ids[..|ids| - 1];
      CopiesOfMessages(rows, front, id);
      assert Messages(rows, ids)[..|ids| - 1] == Messages(rows, front);
      assert ids == front + [ids[|ids| - 1]];
    }
  }

  lemma {:induction false} DistinctCount(ids: seq<nat>, id: nat)
    requires Distinct(ids)
    ensures multiset(ids)[id] == if id in ids then 1 else 0
  {
    if ids != [] {
      var front := ids[..|ids| - 1];
      DistinctCount(front, id);
      assert ids == front + [ids[|ids| - 1]];
    }
  }

  // ---- every step keeps it ----

  lemma AddInv<T>(s: State<T>, added: seq<T>)
    requires Inv(s)
    ensures Inv(s.(rows := s.rows + added))
  {
    var t := s.(rows := s.rows + added);
    forall id: nat ensures CopyAccounted(t, id) && WasteOf(t, id) { assert CopyAccounted(s, id) && WasteOf(s, id); }
  }

  lemma {:induction false} SelectInv<T>(s: State<T>, r: nat, batch: seq<nat>)
    requires Inv(s) && Enabled(s, Select(r, batch))
    ensures Inv(Do(s, Select(r, batch)))
  {
    var t := Do(s, Select(r, batch));
    forall q, p, id | q in t.replicas && p in t.replicas && id in BatchOf(t.replicas[q]) && id in BatchOf(t.replicas[p]) ensures q == p {
      assert id in batch ==> !LockedByAny(s.replicas, id);
    }
    forall id: nat ensures CopyAccounted(t, id) && WasteOf(t, id) {
      assert CopyAccounted(s, id) && WasteOf(s, id);
      if JustSent(s.replicas, id) {
        var q :| q in s.replicas && s.replicas[q].Sent? && id in s.replicas[q].batch;
        assert q != r && t.replicas[q] == s.replicas[q];
      }
    }
  }

  /** The replicas hold the same rows as before, and the log only gained rows of the table. */
  lemma SameBatches<T>(s: State<T>, t: State<T>)
    requires BatchesOk(s) && t.rows == s.rows && t.published == s.published && t.replicas.Keys == s.replicas.Keys
    requires forall q :: q in t.replicas ==> BatchOf(t.replicas[q]) == BatchOf(s.replicas[q])
    ensures BatchesOk(t)
  {
  }

  lemma LongerTopic<T>(s: State<T>, t: State<T>, stored: seq<nat>)
    requires TopicFaithful(s) && t.rows == s.rows && forall i :: 0 <= i < |stored| ==> stored[i] < |s.rows|
    requires t.topic == s.topic + Messages(s.rows, stored)
    ensures TopicFaithful(t)
  {
  }

  lemma {:induction false} WriteBatches<T>(s: State<T>, r: nat, stored: seq<nat>, late: seq<nat>, result: WriteResult)
    requires Inv(s) && Enabled(s, Write(r, stored, late, result))
    ensures BatchesOk(Do(s, Write(r, stored, late, result))) && TopicFaithful(Do(s, Write(r, stored, late, result)))
  {
    var t := Do(s, Write(r, stored, late, result));
    SameBatches(s, t);
    LongerTopic(s, t, stored);
  }

  /** No other replica has just sent a row of this one's batch. */
  lemma SentByNobodyElse<T>(s: State<T>, r: nat, id: nat)
    requires BatchesOk(s) && r in s.replicas && id in BatchOf(s.replicas[r])
    ensures forall q :: q in s.replicas && q != r && s.replicas[q].Sent? ==> id !in s.replicas[q].batch
  {
    forall q | q in s.replicas && q != r && s.replicas[q].Sent? ensures id !in s.replicas[q].batch {
      assert BatchOf(s.replicas[q]) == s.replicas[q].batch;
    }
  }

  lemma {:induction false} WriteCopies<T>(s: State<T>, r: nat, stored: seq<nat>, late: seq<nat>, result: WriteResult, id: nat)
    requires BatchesOk(s) && CopyAccounted(s, id) && Enabled(s, Write(r, stored, late, result))
    ensures CopyAccounted(Do(s, Write(r, stored, late, result)), id)
  {
    var t, batch := Do(s, Write(r, stored, late, result)), s.replicas[r].batch;
    assert BatchOf(s.replicas[r]) == batch;
    CopiesAppend(s.topic, Messages(s.rows, stored), id);
    CopiesOfMessages(s.rows, stored, id);
    SentAfter(s.replicas, r, t.replicas[r], id);
    SentAfter(s.replicas, r, s.replicas[r], id);
    assert s.replicas[r := s.replicas[r]] == s.replicas;
    if result == Stored {
      DistinctCount(batch, id);
      if id in batch { SentByNobodyElse(s, r, id); }
    }
  }

  /** Changing one replica changes which rows count as just sent only through that replica. */
  lemma SentAfter(replicas: map<nat, Replica>, r: nat, new': Replica, id: nat)
    requires r in replicas
    ensures JustSent(replicas[r := new'], id) ==
      ((new'.Sent? && id in new'.batch) || exists q :: q in replicas && q != r && replicas[q].Sent? && id in replicas[q].batch)
  {
    var after := replicas[r := new'];
    if new'.Sent? && id in new'.batch { assert after[r] == new'; }
    if q :| q in replicas && q != r && replicas[q].Sent? && id in replicas[q].batch { assert after[q] == replicas[q]; }
  }

  lemma CommitBatches<T>(s: State<T>, r: nat)
    requires BatchesOk(s) && Enabled(s, Commit(r))
    ensures BatchesOk(Do(s, Commit(r)))
  {
    var t := Do(s, Commit(r));
    assert BatchOf(s.replicas[r]) == s.replicas[r].batch;
    forall q, i | q in t.replicas && 0 <= i < |BatchOf(t.replicas[q])|
      ensures BatchOf(t.replicas[q])[i] < |t.rows| && BatchOf(t.replicas[q])[i] !in t.published
    {
      assert BatchOf(t.replicas[q])[i] in BatchOf(s.replicas[q]);
    }
  }

  lemma CommitCopies<T>(s: State<T>, r: nat, id: nat)
    requires BatchesOk(s) && CopyAccounted(s, id) && Enabled(s, Commit(r))
    ensures CopyAccounted(Do(s, Commit(r)), id)
  {
    var batch := s.replicas[r].batch;
    assert BatchOf(s.replicas[r]) == batch;
    SentAfter(s.replicas, r, Idle, id);
    SentAfter(s.replicas, r, s.replicas[r], id);
    assert s.replicas[r := s.replicas[r]] == s.replicas;
    if id in batch { SentByNobodyElse(s, r, id); }
  }

  /** A write call makes at most one copy of a row, now or later. */
  lemma AmongCount(ids: seq<nat>, more: seq<nat>, batch: seq<nat>, id: nat)
    requires Among(ids + more, batch) && Distinct(batch)
    ensures multiset(ids)[id] + multiset(more)[id] <= multiset(batch)[id]
  {
    DistinctCount(ids + more, id);
    DistinctCount(batch, id);
    assert multiset(ids + more) == multiset(ids) + multiset(more);
    if id in ids + more {
      var i :| 0 <= i < |ids + more| && (ids + more)[i] == id;
    }
  }

  lemma WriteWaste<T>(s: State<T>, r: nat, stored: seq<nat>, late: seq<nat>, result: WriteResult, id: nat)
    requires BatchesOk(s) && WasteOf(s, id) && Enabled(s, Write(r, stored, late, result))
    ensures WasteOf(Do(s, Write(r, stored, late, result)), id)
  {
    assert BatchOf(s.replicas[r]) == s.replicas[r].batch;
    AmongCount(stored, late, s.replicas[r].batch, id);
    assert forall i :: 0 <= i < |late| ==> late[i] == (stored + late)[|stored| + i];
    InBatch(s, r, late, id);
  }

  lemma InBatch<T>(s: State<T>, r: nat, late: seq<nat>, id: nat)
    requires BatchesOk(s) && r in s.replicas && forall i :: 0 <= i < |late| ==> late[i] in BatchOf(s.replicas[r])
    ensures id in multiset(late) ==> id < |s.rows|
  {
    if id in late {
      var i :| 0 <= i < |BatchOf(s.replicas[r])| && BatchOf(s.replicas[r])[i] == id;
    }
  }

  lemma AbortWaste<T>(s: State<T>, r: nat, late: seq<nat>, id: nat)
    requires BatchesOk(s) && WasteOf(s, id) && Enabled(s, Abort(r, late))
    ensures WasteOf(Do(s, Abort(r, late)), id)
  {
    assert BatchOf(s.replicas[r]) == s.replicas[r].batch;
    InBatch(s, r, late, id);
  }

  lemma {:induction false} AbortCopies<T>(s: State<T>, r: nat, late: seq<nat>, id: nat)
    requires BatchesOk(s) && CopyAccounted(s, id) && Enabled(s, Abort(r, late))
    ensures CopyAccounted(Do(s, Abort(r, late)), id)
  {
    var batch := s.replicas[r].batch;
    assert BatchOf(s.replicas[r]) == batch;
    SentAfter(s.replicas, r, Idle, id);
    SentAfter(s.replicas, r, s.replicas[r], id);
    assert s.replicas[r := s.replicas[r]] == s.replicas;
    DistinctCount(batch, id);
    if id in batch { SentByNobodyElse(s, r, id); }
  }

  lemma LandCopies<T>(s: State<T>, id: nat, x: nat)
    requires CopyAccounted(s, x) && WasteOf(s, x) && Enabled(s, LandLate(id))
    ensures CopyAccounted(Do(s, LandLate(id)), x) && WasteOf(Do(s, LandLate(id)), x)
  {
    var m := Msg(id, s.rows[id]);
    assert (s.topic + [m])[..|s.topic|] == s.topic;
  }

  lemma LandInv<T>(s: State<T>, id: nat)
    requires Inv(s) && Enabled(s, LandLate(id))
    ensures Inv(Do(s, LandLate(id)))
  {
    var t := Do(s, LandLate(id));
    forall x: nat ensures CopyAccounted(t, x) && WasteOf(t, x) {
      assert CopyAccounted(s, x) && WasteOf(s, x);
      LandCopies(s, id, x);
    }
  }

  lemma {:induction false} WriteInv<T>(s: State<T>, r: nat, stored: seq<nat>, late: seq<nat>, result: WriteResult)
    requires Inv(s) && Enabled(s, Write(r, stored, late, result))
    ensures Inv(Do(s, Write(r, stored, late, result)))
  {
    WriteBatches(s, r, stored, late, result);
    var t := Do(s, Write(r, stored, late, result));
    forall id: nat ensures CopyAccounted(t, id) && WasteOf(t, id) {
      assert CopyAccounted(s, id) && WasteOf(s, id);
      WriteCopies(s, r, stored, late, result, id);
      WriteWaste(s, r, stored, late, result, id);
    }
  }

  lemma {:induction false} CommitInv<T>(s: State<T>, r: nat)
    requires Inv(s) && Enabled(s, Commit(r))
    ensures Inv(Do(s, Commit(r)))
  {
    CommitBatches(s, r);
    var t := Do(s, Commit(r));
    forall id: nat ensures CopyAccounted(t, id) && WasteOf(t, id) {
      assert CopyAccounted(s, id) && WasteOf(s, id);
      CommitCopies(s, r, id);
    }
  }

  lemma AbortBatches<T>(s: State<T>, r: nat, late: seq<nat>)
    requires BatchesOk(s) && Enabled(s, Abort(r, late))
    ensures BatchesOk(Do(s, Abort(r, late)))
  {
  }

  lemma {:induction false} AbortInv<T>(s: State<T>, r: nat, late: seq<nat>)
    requires Inv(s) && Enabled(s, Abort(r, late))
    ensures Inv(Do(s, Abort(r, late)))
  {
    var t := Do(s, Abort(r, late));
    AbortBatches(s, r, late);
    forall id: nat ensures CopyAccounted(t, id) && WasteOf(t, id) {
      assert CopyAccounted(s, id) && WasteOf(s, id);
      AbortCopies(s, r, late, id);
      AbortWaste(s, r, late, id);
    }
  }

  lemma {:induction false} StepInv<T>(s: State<T>, st: Step<T>)
    requires Inv(s) && Enabled(s, st)
    ensures Inv(Do(s, st))
  {
    match st
    case AddRows(added) => AddInv(s, added);
    case Select(r, batch) => SelectInv(s, r, batch);
    case Write(r, stored, late, result) => WriteInv(s, r, stored, late, result);
    case Commit(r) => CommitInv(s, r);
    case Abort(r, late) => AbortInv(s, r, late);
    case LandLate(id) => LandInv(s, id);
  }

  // ---- what it means ----

  ghost predicate Next<T(!new)>(s: State<T>, t: State<T>) {
    exists st :: Enabled(s, st) && t == Do(s, st)
  }

  ghost predicate Linked<T(!new)>(run: seq<State<T>>, i: int)
    requires 0 < i < |run|
  {
    Next(run[i - 1], run[i])
  }

  ghost predicate IsRun<T(!new)>(run: seq<State<T>>) {
    run != [] && run[0] == Init() && forall i :: 0 < i < |run| ==> Linked(run, i)
  }

  lemma NextInv<T(!new)>(s: State<T>, t: State<T>)
    requires Inv(s) && Next(s, t)
    ensures Inv(t)
  {
    var st :| Enabled(s, st) && t == Do(s, st);
    StepInv(s, st);
  }

  lemma {:induction false} RunInv<T(!new)>(run: seq<State<T>>, i: nat)
    requires IsRun(run) && i < |run|
    ensures Inv(run[i])
  {
    if i > 0 {
      RunInv(run, i - 1);
      assert Linked(run, i);
      NextInv(run[i - 1], run[i]);
    }
  }

  lemma {:induction false} HasCopy<T>(topic: seq<Msg<T>>, id: nat)
    requires Copies(topic, id) > 0
    ensures exists i :: 0 <= i < |topic| && topic[i].id == id
  {
    if topic[|topic| - 1].id != id {
      HasCopy(topic[..|topic| - 1], id);
      var i :| 0 <= i < |topic| - 1 && topic[..|topic| - 1][i].id == id;
      assert topic[i].id == id;
    }
  }

  /** A row is locked by one replica at most, published rows are in the log unaltered, and no row is lost. */
  lemma NoRowIsLost<T(!new)>(run: seq<State<T>>, i: nat, id: nat)
    requires IsRun(run) && i < |run| && id < |run[i].rows|
    ensures var s := run[i];
      && (forall q, r :: q in s.replicas && r in s.replicas && id in BatchOf(s.replicas[q]) && id in BatchOf(s.replicas[r]) ==> q == r)
      && (id in s.published ==> Msg(id, s.rows[id]) in s.topic)
      && (id in s.published || LockedByAny(s.replicas, id) || Selectable(s, [id]))
  {
    RunInv(run, i);
    var s := run[i];
    if id in s.published {
      assert CopyAccounted(s, id);
      HasCopy(s.topic, id);
      var m :| 0 <= m < |s.topic| && s.topic[m].id == id;
      assert s.topic[m] == Msg(id, s.rows[id]);
    }
  }

  /**
   * Everything in the log is a committed row. A row is there once if published, plus once per wasted copy, and
   * each wasted copy is owed to a different write call that failed, even if it was stored long afterwards.
   */
  lemma EveryCopyIsAccountedFor<T(!new)>(run: seq<State<T>>, i: nat)
    requires IsRun(run) && i < |run|
    ensures var s := run[i];
      && (forall m :: 0 <= m < |s.topic| ==> s.topic[m].id < |s.rows| && s.topic[m].value == s.rows[s.topic[m].id])
      && (forall id: nat :: Copies(s.topic, id) <= 1 + s.wasted[id] <= 1 + s.failed[id])
      && (forall id: nat :: id in s.published ==> Copies(s.topic, id) == 1 + s.wasted[id])
  {
    RunInv(run, i);
    var s := run[i];
    forall id: nat ensures Copies(s.topic, id) <= 1 + s.wasted[id] <= 1 + s.failed[id]
      && (id in s.published ==> Copies(s.topic, id) == 1 + s.wasted[id])
    {
      assert CopyAccounted(s, id) && WasteOf(s, id);
      if q :| q in s.replicas && s.replicas[q].Sent? && id in s.replicas[q].batch { assert id in BatchOf(s.replicas[q]); }
    }
  }
}
