/** Nothing gets stuck: from every reachable state the consumer can catch up, and the relay can publish every row. */
module Progress {
  import opened Domain
  import C = ConsumerMachine
  import R = Relay

  // ---- the consumer ----

  lemma ConsumerStep(cfg: C.Config, run: seq<C.Moment>, st: C.Step) returns (longer: seq<C.Moment>)
    requires C.IsRun(cfg, run)
    requires var now := run[|run| - 1]; C.Enabled(cfg, now.state, now.length, st)
    ensures C.IsRun(cfg, longer) && run < longer && |longer| == |run| + 1
    ensures var now := run[|run| - 1]; longer[|run|] == C.Moment(C.Do(cfg, now.state, now.length, st), now.length)
  {
    var now := run[|run| - 1];
    longer := run + [C.Moment(C.Do(cfg, now.state, now.length, st), now.length)];
    forall i | 0 < i < |longer| ensures C.Linked(cfg, longer, i) {
      if i < |run| { assert C.Linked(cfg, run, i); }
    }
  }

  /** One message is fetched, handled and committed. */
  lemma OneMessage(cfg: C.Config, run: seq<C.Moment>) returns (longer: seq<C.Moment>)
    requires C.IsRun(cfg, run)
    requires var now := run[|run| - 1]; now.state.session.Down? && now.state.committed < now.length
    ensures C.IsRun(cfg, longer) && run < longer
    ensures var now, then' := run[|run| - 1], longer[|longer| - 1];
      && then'.length == now.length && then'.state.session.Down? && then'.state.committed == now.state.committed + 1
      && then'.state.parked == now.state.parked
  {
    var x := run[|run| - 1].state.committed;
    longer := ConsumerStep(cfg, run, C.Start);
    longer := ConsumerStep(cfg, longer, C.Fetch);
    longer := ConsumerStep(cfg, longer, C.Process);
    longer := ConsumerStep(cfg, longer, C.Attempt(x, C.Ok));
    longer := ConsumerStep(cfg, longer, C.CommitOffsets(Clean));
    longer := ConsumerStep(cfg, longer, C.Stop);
  }

  lemma {:induction false} CatchesUpFrom(cfg: C.Config, run: seq<C.Moment>) returns (longer: seq<C.Moment>)
    requires C.IsRun(cfg, run)
    requires var now := run[|run| - 1]; now.state.session.Down? && now.state.committed <= now.length
    ensures C.IsRun(cfg, longer) && run <= longer
    ensures var now, then' := run[|run| - 1], longer[|longer| - 1];
      then'.length == now.length && then'.state.committed == now.length && then'.state.parked == now.state.parked
    decreases run[|run| - 1].length - run[|run| - 1].state.committed
  {
    longer := run;
    if run[|run| - 1].state.committed < run[|run| - 1].length {
      longer := OneMessage(cfg, run);
      longer := CatchesUpFrom(cfg, longer);
    }
  }

  /**
   * However a run went so far, wherever it crashed and whatever was lost, it can go on until every message of the
   * topic is committed, without one more of them going to the dead-letter topic.
   */
  lemma ConsumerCanCatchUp(cfg: C.Config, run: seq<C.Moment>) returns (longer: seq<C.Moment>)
    requires C.IsRun(cfg, run)
    ensures C.IsRun(cfg, longer) && run <= longer
    ensures var now, then' := run[|run| - 1], longer[|longer| - 1];
      then'.length == now.length && then'.state.committed == now.length && then'.state.parked == now.state.parked
  {
    C.RunInv(cfg, run, |run| - 1);
    longer := run;
    if !run[|run| - 1].state.session.Down? { longer := ConsumerStep(cfg, run, C.Stop); }
    longer := CatchesUpFrom(cfg, longer);
  }

  // ---- the relay ----

  lemma RelayStep<T(!new)>(run: seq<R.State<T>>, st: R.Step<T>) returns (longer: seq<R.State<T>>)
    requires R.IsRun(run) && R.Enabled(run[|run| - 1], st)
    ensures R.IsRun(longer) && run < longer && |longer| == |run| + 1 && longer[|run|] == R.Do(run[|run| - 1], st)
  {
    longer := run + [R.Do(run[|run| - 1], st)];
    forall i | 0 < i < |longer| ensures R.Linked(longer, i) {
      if i < |run| { assert R.Linked(run, i); }
    }
  }

  ghost predicate RowFree<T>(s: R.State<T>, r: nat, id: nat) {
    R.At(s.replicas, r).Idle? && R.Selectable(s, [id])
  }

  /** Once the replica that has it locked, if any, has failed. */
  lemma FreedRow<T>(s: R.State<T>, r: nat, id: nat)
    requires R.BatchesOk(s) && r in s.replicas && !s.replicas[r].Idle? && id < |s.rows| && id !in s.published
    requires R.LockedByAny(s.replicas, id) ==> id in R.BatchOf(s.replicas[r])
    ensures R.Enabled(s, R.Abort(r, []))
    ensures var t := R.Do(s, R.Abort(r, [])); RowFree(t, r, id) && t.rows == s.rows && t.published == s.published
  {
    var t := R.Do(s, R.Abort(r, []));
    forall q | q in t.replicas ensures id !in R.BatchOf(t.replicas[q]) {
      assert q in s.replicas && (id in R.BatchOf(s.replicas[q]) ==> R.LockedByAny(s.replicas, id));
    }
    assert R.Selectable(t, [id]);
  }

  /** Whoever has the row locked can fail, and then the row is free. */
  lemma FreeRow<T(!new)>(run: seq<R.State<T>>, id: nat) returns (longer: seq<R.State<T>>, r: nat)
    requires R.IsRun(run) && id < |run[|run| - 1].rows| && id !in run[|run| - 1].published
    ensures R.IsRun(longer) && run <= longer && RowFree(longer[|longer| - 1], r, id)
    ensures var s, t := run[|run| - 1], longer[|longer| - 1]; t.rows == s.rows && t.published == s.published
  {
    var s := run[|run| - 1];
    assert R.BatchesOk(s) by { R.RunInv(run, |run| - 1); }
    longer, r := run, 0;
    if R.LockedByAny(s.replicas, id) {
      r :| r in s.replicas && id in R.BatchOf(s.replicas[r]);
    }
    if R.At(s.replicas, r).Idle? {
      assert R.Selectable(s, [id]);
    } else {
      FreedRow(s, r, id);
      longer := RelayStep(run, R.Abort(r, []));
    }
  }

  /** A free row is locked, written and marked. */
  lemma PublishRow<T(!new)>(run: seq<R.State<T>>, r: nat, id: nat) returns (longer: seq<R.State<T>>)
    requires R.IsRun(run) && RowFree(run[|run| - 1], r, id)
    ensures R.IsRun(longer) && run < longer
    ensures var s, t := run[|run| - 1], longer[|longer| - 1]; t.rows == s.rows && t.published == s.published + {id}
  {
    longer := RelayStep(run, R.Select(r, [id]));
    assert R.Among([id] + [], [id]) by { assert [id] + [] == [id]; }
    longer := RelayStep(longer, R.Write(r, [id], [], R.Stored));
    longer := RelayStep(longer, R.Commit(r));
    assert (set x | x in [id]) == {id};
  }

  ghost function Unpublished<T>(s: R.State<T>): set<nat> {
    set id: nat | id < |s.rows| && id !in s.published
  }

  /**
   * However a run of the relay went so far, with replicas failing and copies still on their way, it can go on until
   * every row is published, hence in the log, unaltered.
   */
  lemma {:induction false} RelayCanFinish<T(!new)>(run: seq<R.State<T>>) returns (longer: seq<R.State<T>>)
    requires R.IsRun(run)
    ensures R.IsRun(longer) && run <= longer && longer[|longer| - 1].rows == run[|run| - 1].rows
    ensures var t := longer[|longer| - 1];
      forall id: nat :: id < |t.rows| ==> id in t.published && R.Msg(id, t.rows[id]) in t.topic
    decreases |Unpublished(run[|run| - 1])|
  {
    longer := run;
    var s := run[|run| - 1];
    if id: nat :| id in Unpublished(s) {
      var r;
      longer, r := FreeRow(run, id);
      longer := PublishRow(longer, r, id);
      assert Unpublished(longer[|longer| - 1]) == Unpublished(s) - {id};
      longer := RelayCanFinish(longer);
    } else {
      assert Unpublished(s) == {};
      forall id: nat | id < |s.rows| ensures id in s.published && R.Msg(id, s.rows[id]) in s.topic {
        assert id !in Unpublished(s);
        R.NoRowIsLost(run, |run| - 1, id);
      }
    }
  }
}
