/** handleOne, fetchBatch, process and Run as the code runs them (consumer.go). */
module ConsumerLoop {
  import opened Domain
  import opened ConsumerMachine

  /** When the context turns out to be cancelled after a failed attempt: not, at once, or during the backoff. */
  datatype Cancel = No | AtOnce | InBackoff

  /** What the environment does while one message is handled; attempts are numbered from 1. */
  datatype Script = Script(outcome: nat -> Outcome, cancel: nat -> Cancel, dlq: Fault)

  datatype Result = Handled | Parked | ShutDown | DlqFailed

  /** Where the machine's Work stands after the first `calls` attempts. */
  function WorkAfter(cfg: Config, s: Script, calls: nat): Work {
    if calls == 0 then Trying(0)
    else
      match WorkAfter(cfg, s, calls - 1)
      case Trying(n) => AfterCall(cfg, n, s.outcome(calls))
      case w => w
  }

  /** The n-th attempt settles the message: it is handled, or given up and safely parked. */
  ghost predicate SettlesAt(cfg: Config, s: Script, n: nat) {
    && 1 <= n <= cfg.maxAttempts && (forall k :: 1 <= k < n ==> s.outcome(k) == Retry && s.cancel(k) == No)
    && (s.outcome(n) == Ok
        || (s.cancel(n) != AtOnce && s.dlq == Clean && (s.outcome(n) == Permanent || n == cfg.maxAttempts)))
  }

  /** The script lets handleOne return nil. */
  ghost predicate Succeeds(cfg: Config, s: Script) {
    exists n :: SettlesAt(cfg, s, n)
  }

  /** No attempt follows the one that settles a message. */
  lemma OneEnd(cfg: Config, s: Script)
    ensures forall m, n :: SettlesAt(cfg, s, m) && SettlesAt(cfg, s, n) ==> m == n
  {
  }

  /** The environment's part in one turn of Run; `arrived` messages have been added to the topic before it. */
  datatype Turn = Turn(arrived: nat, next: nat -> Fetched, scripts: nat -> Script, commit: Fault)

  datatype Fetched = Message | Timeout | Stopped | ReaderError

  class Consumer {
    const cfg: Config
    /** The topic's length, and the reader's and the group's place in it. */
    var length: nat
    var position: nat
    var committed: nat
    /** History: offsets handled, and offsets stored on the dead-letter topic. */
    ghost var handled: set<nat>
    ghost var parked: set<nat>
    var retried: nat
    var deadLettered: nat

    ghost predicate Valid()
      reads this
    {
      && ValidConfig(cfg) && committed <= position <= length
      && forall x: nat :: x < committed ==> x in handled || x in parked
    }

    constructor (cfg: Config, length: nat)
      requires ValidConfig(cfg)
      ensures Valid() && this.cfg == cfg && this.length == length && committed == 0 && handled == parked == {} && retried == 0
    {
      this.cfg, this.length, position, committed := cfg, length, 0, 0;
      handled, parked, retried, deadLettered := {}, {}, 0, 0;
    }

    /** handleOne: nil (Handled or Parked) exactly when the message is handled or safely parked. */
    method HandleOne(x: nat, s: Script) returns (result: Result, calls: nat)
      requires ValidConfig(cfg)
      modifies this`handled, this`parked, this`retried, this`deadLettered
      ensures 1 <= calls <= cfg.maxAttempts
      ensures forall k :: 1 <= k < calls ==> s.outcome(k) == Retry && s.cancel(k) == No
      ensures result == Handled <==> s.outcome(calls) == Ok
      ensures result == Parked || result == DlqFailed ==> WorkAfter(cfg, s, calls) == Doomed
      ensures result == Parked || result == DlqFailed ==>
        s.outcome(calls) == Permanent || (s.outcome(calls) == Retry && calls == cfg.maxAttempts)
      ensures result == Handled || result == Parked <==> Succeeds(cfg, s)
      ensures result == Handled ==> WorkAfter(cfg, s, calls) == Settled
      ensures result == ShutDown <==>
        && s.outcome(calls) != Ok
        && (s.cancel(calls) == AtOnce || (s.cancel(calls) == InBackoff && s.outcome(calls) == Retry && calls < cfg.maxAttempts))
      ensures retried == old(retried) + calls - 1 + if result == ShutDown && s.cancel(calls) == InBackoff then 1 else 0
      ensures handled == if result == Handled then old(handled) + {x} else old(handled)
      ensures deadLettered == if result == Parked then old(deadLettered) + 1 else old(deadLettered)
      ensures (result == Parked ==> s.dlq == Clean) && (result == DlqFailed ==> s.dlq != Clean)
      ensures parked == if result == Parked || (result == DlqFailed && s.dlq == Unreported) then old(parked) + {x} else old(parked)
    {
      OneEnd(cfg, s);
      calls := 0;
      while calls < cfg.maxAttempts
        invariant 0 <= calls <= cfg.maxAttempts
        invariant forall k :: 1 <= k <= calls ==> s.outcome(k) == Retry && s.cancel(k) != AtOnce
        invariant forall k :: 1 <= k <= calls && k < cfg.maxAttempts ==> s.cancel(k) == No
        invariant calls < cfg.maxAttempts ==> WorkAfter(cfg, s, calls) == Trying(calls) && retried == old(retried) + calls
        invariant calls == cfg.maxAttempts ==> WorkAfter(cfg, s, calls) == Doomed && retried == old(retried) + calls - 1
        invariant handled == old(handled) && parked == old(parked) && deadLettered == old(deadLettered)
      {
        calls := calls + 1;
        var err := s.outcome(calls);
        if err == Ok {
          handled := handled + {x};
          assert SettlesAt(cfg, s, calls);
          return Handled, calls;
        }
        if s.cancel(calls) == AtOnce {
          return ShutDown, calls;
        }
        if err == Permanent {
          result := DeadLetter(x, s.dlq);
          assert s.dlq == Clean ==> SettlesAt(cfg, s, calls);
          return result, calls;
        }
        if calls < cfg.maxAttempts {
          retried := retried + 1;
          if s.cancel(calls) == InBackoff {
            return ShutDown, calls;
          }
        }
      }
      result := DeadLetter(x, s.dlq);
      assert s.dlq == Clean ==> SettlesAt(cfg, s, calls);
    }

    /** deadLetter: one write to the dead-letter topic. */
    method DeadLetter(x: nat, fault: Fault) returns (result: Result)
      modifies this`parked, this`deadLettered
      ensures result == if fault == Clean then Parked else DlqFailed
      ensures parked == if fault == RolledBack then old(parked) else old(parked) + {x}
      ensures deadLettered == if fault == Clean then old(deadLettered) + 1 else old(deadLettered)
    {
      if fault != RolledBack {
        parked := parked + {x};
      }
      if fault != Clean {
        return DlqFailed;
      }
      deadLettered := deadLettered + 1;
      return Parked;
    }

    /** fetchBatch: blocks for one message, then fills up until the batch is full or the wait is over. */
    method FetchBatch(next: nat -> Fetched) returns (batch: seq<nat>, err: bool)
      requires ValidConfig(cfg) && position <= length
      modifies this`position
      ensures old(position) <= position <= length
      ensures forall i :: 0 <= i < |batch| ==> batch[i] == old(position) + i
      ensures |batch| <= cfg.batchSize && (!err ==> position == old(position) + |batch|) && (err ==> batch == [])
      ensures forall i :: 0 <= i < position - old(position) ==> next(i) == Message
      ensures !err ==>
        |batch| == cfg.batchSize || position == length || next(|batch|) == Timeout || next(|batch|) == Stopped
      ensures err ==>
        position < length && position - old(position) < cfg.batchSize && next(position - old(position)) == ReaderError
    {
      batch := [];
      if position == length || next(0) == Stopped || next(0) == Timeout {
        return [], false;
      }
      if next(0) == ReaderError {
        return [], true;
      }
      batch := [position];
      position := position + 1;
      while |batch| < cfg.batchSize
        invariant 1 <= |batch| <= cfg.batchSize
        invariant position == old(position) + |batch| <= length && forall i :: 0 <= i < |batch| ==> next(i) == Message
        invariant forall i :: 0 <= i < |batch| ==> batch[i] == old(position) + i
      {
        if position == length || next(|batch|) == Timeout || next(|batch|) == Stopped {
          break;
        }
        if next(|batch|) == ReaderError {
          return [], true;
        }
        batch := batch + [position];
        position := position + 1;
      }
      return batch, false;
    }

    /** process: every message of the batch gets its turn; it succeeds only if each was handled or parked. */
    method ProcessBatch(batch: seq<nat>, scripts: nat -> Script) returns (ok: bool)
      requires ValidConfig(cfg)
      modifies this`handled, this`parked, this`retried, this`deadLettered
      ensures ok ==> forall i :: 0 <= i < |batch| ==> batch[i] in handled || batch[i] in parked
      ensures ok <==> forall i :: 0 <= i < |batch| ==> Succeeds(cfg, scripts(i))
      ensures old(handled) <= handled && old(parked) <= parked
      ensures forall x :: x in handled - old(handled) || x in parked - old(parked) ==> x in batch
    {
      ok := true;
      var i := 0;
      while i < |batch|
        invariant 0 <= i <= |batch|
        invariant ok ==> forall j :: 0 <= j < i ==> batch[j] in handled || batch[j] in parked
        invariant ok <==> forall j :: 0 <= j < i ==> Succeeds(cfg, scripts(j))
        invariant old(handled) <= handled && old(parked) <= parked
        invariant forall x :: x in handled - old(handled) || x in parked - old(parked) ==> x in batch
      {
        var result, calls := HandleOne(batch[i], scripts(i));
        ok := ok && (result == Handled || result == Parked);
        i := i + 1;
      }
    }

    /** One turn of Run's loop; `false` ends the run, leaving the batch uncommitted unless only the reply was lost. */
    method RunOnce(next: nat -> Fetched, scripts: nat -> Script, commit: Fault) returns (goOn: bool)
      requires Valid() && position == committed
      modifies this
      ensures Valid() && length == old(length) && old(committed) <= committed
      ensures old(handled) <= handled && old(parked) <= parked
      ensures goOn ==> position == committed
      ensures committed == old(committed) || (committed == position && commit != RolledBack)
      ensures forall i :: 0 <= i < committed - old(committed) ==> next(i) == Message && Succeeds(cfg, scripts(i))
      ensures (forall i :: 0 <= i < cfg.batchSize ==> next(i) == Message && Succeeds(cfg, scripts(i))) && commit == Clean ==>
        && goOn
        && committed == if length - old(committed) <= cfg.batchSize then length else old(committed) + cfg.batchSize
    {
      var batch, err := FetchBatch(next);
      if err {
        return false;
      }
      if |batch| == 0 {
        return true;
      }
      var ok := ProcessBatch(batch, scripts);
      if !ok {
        return false;
      }
      forall x: nat | x < position ensures x in handled || x in parked {
        if x >= old(committed) { assert batch[x - old(committed)] == x; }
      }
      if commit != RolledBack {
        committed := position;
      }
      return commit == Clean;
    }

    /** Run, restarted after every failure, for any number of turns on a growing topic: the offset never passes an unsettled message. */
    method RunForever(turns: seq<Turn>)
      requires Valid()
      modifies this
      ensures Valid() && old(length) <= length && old(committed) <= committed && old(handled) <= handled && old(parked) <= parked
    {
      var i := 0;
      Restart();
      while i < |turns|
        invariant Valid() && position == committed && old(length) <= length && old(committed) <= committed
        invariant old(handled) <= handled && old(parked) <= parked
      {
        length := length + turns[i].arrived;
        var goOn := RunOnce(turns[i].next, turns[i].scripts, turns[i].commit);
        if !goOn {
          Restart();
        }
        i := i + 1;
      }
    }

    /** A restart: the reader goes back to the committed offset, so everything after it is delivered again. */
    method Restart()
      requires Valid()
      modifies this`position
      ensures Valid() && position == committed == old(committed)
    {
      position := committed;
    }
  }

  /**
   * What handleOne's contract means: it gives a message up exactly after a permanent failure or after the
   * last attempt, and never calls the handler once it has succeeded.
   */
  lemma {:induction false} GivesUpExactlyWhen(cfg: Config, s: Script, calls: nat)
    requires ValidConfig(cfg) && 1 <= calls <= cfg.maxAttempts
    requires forall k :: 1 <= k < calls ==> s.outcome(k) == Retry
    ensures WorkAfter(cfg, s, calls) == Doomed <==>
      s.outcome(calls) == Permanent || (s.outcome(calls) == Retry && calls == cfg.maxAttempts)
  {
    StillTrying(cfg, s, calls - 1);
  }

  lemma {:induction false} StillTrying(cfg: Config, s: Script, calls: nat)
    requires ValidConfig(cfg) && calls < cfg.maxAttempts && forall k :: 1 <= k <= calls ==> s.outcome(k) == Retry
    ensures WorkAfter(cfg, s, calls) == Trying(calls)
  {
    if calls > 0 { StillTrying(cfg, s, calls - 1); }
  }
}
