/** publishBatch and the producer's retry loop as the code runs them (publisher.go, producer.go). */
module Publisher {
  import opened Domain
  import opened Relay

  // ---- what a write reports, and what it stores ----

  datatype KafkaError = UnknownTopicOrPartition | AnotherError

  /** The writer's error: one entry per message, nil for those it stored, or one error for the whole call. */
  datatype WriteError = PerMessage(errors: seq<Option<KafkaError>>) | Whole(error: KafkaError)

  /** One WriteMessages call. `landed` are messages stored although another error was reported for them. */
  datatype Call = Call(err: Option<WriteError>, landed: set<nat>)

  /** isUnknownTopic's verdict: nil entries are passed over. */
  predicate LooksUnknown(err: WriteError) {
    match err
    case PerMessage(errors) => forall i :: 0 <= i < |errors| ==> errors[i] == None || errors[i] == Some(UnknownTopicOrPartition)
    case Whole(error) => error == UnknownTopicOrPartition
  }

  /** isUnknownTopic */
  method IsUnknownTopic(err: WriteError) returns (unknown: bool)
    ensures unknown <==> LooksUnknown(err)
    ensures err.Whole? ==> (unknown <==> err.error == UnknownTopicOrPartition)
    ensures err.PerMessage? ==> (unknown <==> Some(AnotherError) !in err.errors)
  {
    if err.Whole? {
      return err.error == UnknownTopicOrPartition;
    }
    for i := 0 to |err.errors|
      invariant forall k :: 0 <= k < i ==> err.errors[k] == None || err.errors[k] == Some(UnknownTopicOrPartition)
    {
      if err.errors[i] != None && err.errors[i] != Some(UnknownTopicOrPartition) {
        assert err.errors[i].value.AnotherError?;
        return false;
      }
    }
    return true;
  }

  function Result(w: Call): WriteResult {
    if w.err == None then Stored else if LooksUnknown(w.err.value) then UnknownTopic else OtherError
  }

  /** The writer gives as many entries as it was given messages. */
  predicate Fits(w: Call, n: nat) {
    w.err.Some? && w.err.value.PerMessage? ==> |w.err.value.errors| == n
  }

  /** Kafka keeps the i-th message: it was stored, or landed in spite of an error that does not rule it out. */
  predicate Keeps(w: Call, i: nat, id: nat) {
    match w.err
    case None => true
    case Some(PerMessage(errors)) =>
      i < |errors| && (errors[i] == None || (errors[i] == Some(AnotherError) && id in w.landed))
    case Some(Whole(error)) => error == AnotherError && id in w.landed
  }

  /** What one write adds to the log, of the messages from the i-th on. */
  function Kept<T>(msgs: seq<Msg<T>>, w: Call, i: nat): seq<Msg<T>>
    decreases |msgs| - i
  {
    if i >= |msgs| then []
    else if Keeps(w, i, msgs[i].id) then [msgs[i]] + Kept(msgs, w, i + 1)
    else Kept(msgs, w, i + 1)
  }

  function KeptByAll<T>(msgs: seq<Msg<T>>, ws: seq<Call>): seq<Msg<T>> {
    if ws == [] then [] else KeptByAll(msgs, ws[..|ws| - 1]) + Kept(msgs, ws[|ws| - 1], 0)
  }

  /** The first rows in (created_at, id) order that are neither published nor locked by another replica. */
  function Pick(order: seq<nat>, taken: set<nat>, limit: nat): seq<nat> {
    if order == [] || limit == 0 then []
    else if order[0] in taken then Pick(order[1..], taken, limit)
    else [order[0]] + Pick(order[1..], taken, limit - 1)
  }

  /** Where publishBatch can go wrong, besides the writes themselves. */
  datatype Trouble = NoTrouble | BeginFails | SelectFails | ScanFails(row: nat) | IterationFails | MarkFails | CommitFails(fault: Fault)

  class Publisher<T(0)> {
    var rows: seq<T>
    var published: set<nat>
    var topic: seq<Msg<T>>

    constructor (rows: seq<T>)
      ensures this.rows == rows && published == {} && topic == []
    {
      this.rows, published, topic := rows, {}, [];
    }

    /**
     * Publish: the write is repeated, up to eight times, for as long as it fails with "unknown topic".
     * `cancelled(n)` says whether the context ends during the wait after the n-th write.
     */
    method Publish(msgs: seq<Msg<T>>, writes: seq<Call>, cancelled: nat -> bool) returns (ok: bool, calls: nat)
      requires |writes| == UNKNOWN_TOPIC_ATTEMPTS
      modifies this`topic
      ensures 1 <= calls <= 8
      ensures topic == old(topic) + KeptByAll(msgs, writes[..calls])
      ensures forall i :: 0 <= i < calls - 1 ==> Result(writes[i]) == UnknownTopic
      ensures forall i :: 1 <= i < calls ==> !cancelled(i)
      ensures ok <==> Result(writes[calls - 1]) == Stored
      ensures ok <==> writes[calls - 1].err == None
      ensures Result(writes[calls - 1]) == UnknownTopic ==> calls == 8 || cancelled(calls)
    {
      calls := 0;
      while true
        invariant 0 <= calls < UNKNOWN_TOPIC_ATTEMPTS
        invariant topic == old(topic) + KeptByAll(msgs, writes[..calls])
        invariant forall i :: 0 <= i < calls ==> Result(writes[i]) == UnknownTopic
        invariant forall i :: 1 <= i <= calls ==> !cancelled(i)
        decreases UNKNOWN_TOPIC_ATTEMPTS - calls
      {
        var w := writes[calls];
        topic := topic + Kept(msgs, w, 0);
        assert writes[..calls + 1][..calls] == writes[..calls];
        calls := calls + 1;
        if w.err == None {
          return true, calls;
        }
        var unknown := IsUnknownTopic(w.err.value);
        if !unknown || calls == UNKNOWN_TOPIC_ATTEMPTS || cancelled(calls) {
          return false, calls;
        }
      }
    }

    /** publishBatch. `order` lists all rows oldest first; `locked` are the rows other replicas hold. */
    method PublishBatch(order: seq<nat>, locked: set<nat>, writes: seq<Call>, cancelled: nat -> bool, trouble: Trouble)
      returns (n: nat, err: bool, calls: nat)
      requires |writes| == UNKNOWN_TOPIC_ATTEMPTS && forall i :: 0 <= i < |order| ==> order[i] < |rows|
      modifies this`published, this`topic
      ensures var batch := Pick(order, old(published) + locked, 100);
        var unread := trouble == BeginFails || trouble == SelectFails || trouble == IterationFails
                      || (trouble.ScanFails? && trouble.row < |batch|);
        && (forall i :: 0 <= i < |batch| ==> batch[i] < |rows|)
        && (calls == 0 <==> unread || batch == [])
        && calls <= 8 && topic == old(topic) + KeptByAll(Messages(rows, batch), writes[..calls])
        && n == (if err then 0 else |batch|)
        && (calls == 0 ==> published == old(published) && (err <==> unread))
        && (calls > 0 ==>
              && (!err <==> writes[calls - 1].err == None && trouble != MarkFails && trouble != CommitFails(RolledBack)
                            && trouble != CommitFails(Unreported))
              && published == if writes[calls - 1].err == None && trouble != MarkFails && trouble != CommitFails(RolledBack)
                              then old(published) + (set id | id in batch) else old(published))
    {
      PickInRange(order, published + locked, BATCH_LIMIT, |rows|);
      if trouble == BeginFails || trouble == SelectFails {
        return 0, true, 0;
      }
      var ids, msgs, scanned := SelectBatch(order, locked, if trouble.ScanFails? then Some(trouble.row) else None);
      if !scanned || trouble == IterationFails {
        return 0, true, 0;
      }
      if |msgs| == 0 {
        return 0, false, 0;
      }
      var ok;
      ok, calls := Publish(msgs, writes, cancelled);
      if !ok || trouble == MarkFails || trouble == CommitFails(RolledBack) {
        return 0, true, calls;
      }
      published := published + (set id | id in ids);
      if trouble == CommitFails(Unreported) {
        return 0, true, calls;
      }
      return |msgs|, false, calls;
    }

    /** The SELECT: the oldest rows that are neither published nor locked, and the messages made of them. */
    method SelectBatch(order: seq<nat>, locked: set<nat>, badRow: Option<nat>) returns (ids: seq<nat>, msgs: seq<Msg<T>>, ok: bool)
      requires forall i :: 0 <= i < |order| ==> order[i] < |rows|
      ensures ok <==> badRow.None? || badRow.value >= |Pick(order, published + locked, BATCH_LIMIT)|
      ensures ok ==> ids == Pick(order, published + locked, BATCH_LIMIT)
      ensures (forall i :: 0 <= i < |ids| ==> ids[i] < |rows|) && msgs == Messages(rows, ids)
    {
      ids, msgs := [], [];
      var i := 0;
      while i < |order| && |ids| < BATCH_LIMIT
        invariant 0 <= i <= |order| && |ids| <= BATCH_LIMIT
        invariant forall k :: 0 <= k < |ids| ==> ids[k] < |rows|
        invariant Picked(order, published + locked, i, ids)
        invariant msgs == Messages(rows, ids) && (badRow.Some? ==> |ids| <= badRow.value)
      {
        PickedNext(order, published + locked, i, ids);
        if order[i] !in published && order[i] !in locked {
          if badRow == Some(|ids|) {
            return ids, msgs, false;
          }
          ids := ids + [order[i]];
          msgs := msgs + [Msg(order[i], rows[order[i]])];
        }
        i := i + 1;
      }
      ok := true;
    }
  }

  /** Of the first i rows these are picked, and the rest of the batch comes from the others. */
  ghost predicate Picked(order: seq<nat>, taken: set<nat>, i: nat, ids: seq<nat>) {
    && i <= |order| && |ids| <= BATCH_LIMIT
    && Pick(order, taken, BATCH_LIMIT) == ids + Pick(order[i..], taken, BATCH_LIMIT - |ids|)
  }

  lemma PickedNext(order: seq<nat>, taken: set<nat>, i: nat, ids: seq<nat>)
    requires Picked(order, taken, i, ids) && i < |order| && |ids| < BATCH_LIMIT
    ensures order[i] in taken ==> Picked(order, taken, i + 1, ids)
    ensures order[i] !in taken ==> Picked(order, taken, i + 1, ids + [order[i]]) && |Pick(order, taken, BATCH_LIMIT)| > |ids|
  {
    assert order[i..][0] == order[i] && order[i..][1..] == order[i + 1..];
  }

  lemma {:induction false} PickInRange(order: seq<nat>, taken: set<nat>, limit: nat, n: nat)
    requires forall i :: 0 <= i < |order| ==> order[i] < n
    ensures forall i :: 0 <= i < |Pick(order, taken, limit)| ==> Pick(order, taken, limit)[i] < n
    decreases |order|
  {
    if order != [] && limit > 0 {
      PickInRange(order[1..], taken, if order[0] in taken then limit else limit - 1, n);
    }
  }

  /** What is picked earlier is older. */
  ghost predicate OlderFirst(order: seq<nat>, batch: seq<nat>, a: nat, b: nat, i: nat, j: nat) {
    a < b < |batch| && i < |order| && j < |order| && order[i] == batch[a] && order[j] == batch[b] ==> i < j
  }

  lemma {:induction false} OldestFirst(order: seq<nat>, taken: set<nat>, limit: nat)
    requires Distinct(order)
    ensures forall a, b, i, j :: OlderFirst(order, Pick(order, taken, limit), a, b, i, j)
    ensures forall id :: id in Pick(order, taken, limit) ==> id in order
    decreases |order|
  {
    if order != [] && limit > 0 {
      var rest, x := order[1..], order[0];
      var less := if x in taken then limit else limit - 1;
      OldestFirst(rest, taken, less);
      var tail, batch := Pick(rest, taken, less), Pick(order, taken, limit);
      assert batch == (if x in taken then tail else [x] + tail);
      var shift := |batch| - |tail|;
      forall a: nat, b: nat, i: nat, j: nat ensures OlderFirst(order, batch, a, b, i, j) {
        if a < b < |batch| && i < |order| && j < |order| && order[i] == batch[a] && order[j] == batch[b] {
          assert batch[b] == tail[b - shift] && tail[b - shift] in rest;
          assert j > 0 && order[j] == rest[j - 1];
          if i > 0 {
            assert order[0] != order[i];
            assert order[i] == rest[i - 1] && batch[a] == tail[a - shift];
            assert OlderFirst(rest, tail, a - shift, b - shift, i - 1, j - 1);
          }
        }
      }
    }
  }

  /** The batch is what the relay may lock: unpublished, unlocked rows, each once, oldest first, no gaps, up to the limit. */
  lemma {:induction false} PickTakesTheOldest(order: seq<nat>, taken: set<nat>, limit: nat)
    requires Distinct(order)
    ensures var batch := Pick(order, taken, limit);
      && |batch| <= limit && Distinct(batch)
      && (forall id :: id in batch ==> id in order && id !in taken)
      && (forall i, j :: 0 <= i < j < |order| && order[i] !in taken && order[j] in batch ==> order[i] in batch)
      && (|batch| < limit ==> forall id :: id in order && id !in taken ==> id in batch)
      && forall a, b, i, j :: OlderFirst(order, batch, a, b, i, j)
    decreases |order|
  {
    OldestFirst(order, taken, limit);
    if order != [] && limit > 0 {
      var rest, x := order[1..], order[0];
      var less := if x in taken then limit else limit - 1;
      PickTakesTheOldest(rest, taken, less);
      assert forall id :: id in order <==> id == x || id in rest;
      var tail, batch := Pick(rest, taken, less), Pick(order, taken, limit);
      assert batch == (if x in taken then tail else [x] + tail);
      assert forall id :: id in batch <==> (id == x && x !in taken) || id in tail;
      forall i, j | 0 <= i < j < |order| && order[i] !in taken && order[j] in batch ensures order[i] in batch {
        assert order[j] == rest[j - 1];
        if i > 0 { assert order[i] == rest[i - 1]; }
      }
    }
  }

  // ---- the retry is not always free of duplicates ----

  /** A write keeps each message at most once. */
  lemma {:induction false} KeptAtMost<T>(msgs: seq<Msg<T>>, w: Call, i: nat, id: nat)
    requires i <= |msgs|
    ensures Copies(Kept(msgs, w, i), id) <= Copies(msgs[i..], id)
    ensures Copies(Kept(msgs, w, i), id) > 0 <==> exists m :: i <= m < |msgs| && msgs[m].id == id && Keeps(w, m, id)
    decreases |msgs| - i
  {
    if i == |msgs| {
      assert msgs[i..] == [];
    } else {
      var one, rest := [msgs[i]], Kept(msgs, w, i + 1);
      KeptAtMost(msgs, w, i + 1, id);
      assert msgs[i..] == one + msgs[i + 1..];
      CopiesAppend(one, msgs[i + 1..], id);
      CopiesAppend(one, rest, id);
      assert Copies(one, id) == (if msgs[i].id == id then 1 else 0) by { assert one[..0] == []; }
      if m :| i + 1 <= m < |msgs| && msgs[m].id == id && Keeps(w, m, id) { assert i <= m; }
    }
  }

  lemma {:induction false} KeptAll<T>(msgs: seq<Msg<T>>, w: Call, i: nat)
    requires Result(w) == Stored && i <= |msgs|
    ensures Kept(msgs, w, i) == msgs[i..]
    decreases |msgs| - i
  {
    if i < |msgs| { KeptAll(msgs, w, i + 1); }
  }

  ghost predicate KeptSome<T>(msgs: seq<Msg<T>>, w: Call, id: nat) {
    exists m: nat :: m < |msgs| && msgs[m].id == id && Keeps(w, m, id)
  }

  lemma {:induction false} RejectedCopies<T>(msgs: seq<Msg<T>>, ws: seq<Call>, id: nat)
    ensures Copies(KeptByAll(msgs, ws), id) > 0 <==> exists i :: 0 <= i < |ws| && KeptSome(msgs, ws[i], id)
  {
    if ws != [] {
      var front, last := ws[..|ws| - 1], ws[|ws| - 1];
      RejectedCopies(msgs, front, id);
      KeptAtMost(msgs, last, 0, id);
      CopiesAppend(KeptByAll(msgs, front), Kept(msgs, last, 0), id);
      if i :| 0 <= i < |front| && KeptSome(msgs, front[i], id) { assert KeptSome(msgs, ws[i], id); }
      if KeptSome(msgs, last, id) { assert KeptSome(msgs, ws[|ws| - 1], id); }
    }
  }

  ghost predicate EachOnce<T>(msgs: seq<Msg<T>>, ws: seq<Call>) {
    forall id: nat :: Copies(KeptByAll(msgs, ws), id) == Copies(msgs, id)
  }

  lemma CopiesOfOne<T>(msgs: seq<Msg<T>>, rejected: seq<Call>, last: Call, id: nat)
    requires Result(last) == Stored
    ensures Copies(KeptByAll(msgs, rejected + [last]), id) == Copies(KeptByAll(msgs, rejected), id) + Copies(msgs, id)
  {
    assert (rejected + [last])[..|rejected|] == rejected;
    CopiesAppend(KeptByAll(msgs, rejected), Kept(msgs, last, 0), id);
    KeptAll(msgs, last, 0);
    assert msgs[0..] == msgs;
  }

  /** The error lists some message as stored. */
  predicate HasNil(w: Call) {
    w.err.Some? && w.err.value.PerMessage? && None in w.err.value.errors
  }

  /** A write rejected as "unknown topic" kept something exactly if its error has a nil entry. */
  lemma KeptExactlyNil<T>(msgs: seq<Msg<T>>, w: Call)
    requires Result(w) == UnknownTopic && Fits(w, |msgs|)
    ensures HasNil(w) <==> exists m: nat :: m < |msgs| && Keeps(w, m, msgs[m].id)
  {
    if HasNil(w) {
      var m: nat :| m < |w.err.value.errors| && w.err.value.errors[m] == None;
      assert Keeps(w, m, msgs[m].id);
    }
  }

  /**
   * A successful Publish stores each message of the batch once if and only if no rejected write's error has a nil
   * entry. isUnknownTopic passes nil entries over, so a write that stored some messages and lacked the topic for
   * the others is sent again whole.
   */
  lemma StoredOnceExactlyIf<T>(msgs: seq<Msg<T>>, rejected: seq<Call>, last: Call)
    requires Result(last) == Stored && forall i :: 0 <= i < |rejected| ==> Result(rejected[i]) == UnknownTopic && Fits(rejected[i], |msgs|)
    ensures EachOnce(msgs, rejected + [last]) <==> forall i :: 0 <= i < |rejected| ==> !HasNil(rejected[i])
  {
    forall id: nat ensures Copies(KeptByAll(msgs, rejected + [last]), id) == Copies(KeptByAll(msgs, rejected), id) + Copies(msgs, id) {
      CopiesOfOne(msgs, rejected, last, id);
    }
    if i :| 0 <= i < |rejected| && HasNil(rejected[i]) {
      KeptExactlyNil(msgs, rejected[i]);
      var m: nat :| m < |msgs| && Keeps(rejected[i], m, msgs[m].id);
      assert KeptSome(msgs, rejected[i], msgs[m].id);
      RejectedCopies(msgs, rejected, msgs[m].id);
    } else {
      forall id: nat ensures Copies(KeptByAll(msgs, rejected), id) == 0 {
        RejectedCopies(msgs, rejected, id);
        forall i | 0 <= i < |rejected| ensures !KeptSome(msgs, rejected[i], id) { KeptExactlyNil(msgs, rejected[i]); }
      }
    }
  }

  /** The instance: first message stored, second without a topic. The code calls that "unknown topic" and sends both again. */
  lemma MixedResultDuplicates()
    ensures var mixed := Call(Some(PerMessage([None, Some(UnknownTopicOrPartition)])), {});
      && LooksUnknown(mixed.err.value)
      && !EachOnce([Msg(1, 'a'), Msg(2, 'b')], [mixed, Call(None, {})])
  {
    var mixed := Call(Some(PerMessage([None, Some(UnknownTopicOrPartition)])), {});
    assert mixed.err.value.errors[0] == None && HasNil(mixed);
    assert [mixed] + [Call(None, {})] == [mixed, Call(None, {})];
    assert [mixed][0] == mixed;
    StoredOnceExactlyIf([Msg(1, 'a'), Msg(2, 'b')], [mixed], Call(None, {}));
  }
}
