/** The Kafka consumer: batches, retries, the dead-letter topic and offset commits (pkg/kafka/consumer.go). */
module ConsumerMachine {
  import opened Domain

  /** What the handler reports: success, an error worth retrying, or one that retrying cannot fix. */
  datatype Outcome = Ok | Retry | Permanent

  datatype Config = Config(batchSize: nat, maxAttempts: nat)

  /** applyDefaults leaves at least one message per batch and one attempt per message. */
  predicate ValidConfig(c: Config) {
    c.batchSize >= 1 && c.maxAttempts >= 1
  }

  // ---- the consumer as a machine: handlers of one batch interleave, and it may die at any point ----

  /** A message of the batch: still being tried, given up on, or handled or parked. */
  datatype Work = Trying(calls: nat) | Doomed | Settled

  datatype Session =
    | Down
    | Fetching(next: nat)
    | Processing(next: nat, work: map<nat, Work>)

  /** `handled` and `parked` are history: offsets some session handled, or stored on the dead-letter topic. */
  datatype State = State(committed: nat, session: Session, handled: set<nat>, parked: set<nat>)

  const INIT := State(0, Down, {}, {})

  datatype Step =
    | Start
    | Fetch
    | Process
    | Attempt(offset: nat, outcome: Outcome)
    | Park(offset: nat, fault: Fault)
    | CommitOffsets(fault: Fault)
    | Stop

  ghost predicate Enabled(cfg: Config, s: State, length: nat, st: Step) {
    match st
    case Start => s.session.Down?
    case Fetch => s.session.Fetching? && s.session.next < length && s.session.next < s.committed + cfg.batchSize
    case Process => s.session.Fetching? && s.committed < s.session.next
    case Attempt(x, _) =>
      s.session.Processing? && x in s.session.work && s.session.work[x].Trying? && s.session.work[x].calls < cfg.maxAttempts
    case Park(x, _) => s.session.Processing? && x in s.session.work && s.session.work[x].Doomed?
    case CommitOffsets(_) => s.session.Processing? && forall x :: x in s.session.work ==> s.session.work[x].Settled?
    case Stop => !s.session.Down?
  }

  function AfterCall(cfg: Config, calls: nat, outcome: Outcome): Work {
    match outcome
    case Ok => Settled
    case Permanent => Doomed
    case Retry => if calls + 1 < cfg.maxAttempts then Trying(calls + 1) else Doomed
  }

  function Untried(from: nat, to: nat): (work: map<nat, Work>)
    ensures forall x :: x in work <==> from <= x < to
    ensures forall x :: x in work ==> work[x] == Trying(0)
  {
    if to <= from then map[] else Untried(from, to - 1)[to - 1 := Trying(0)]
  }

  ghost function Do(cfg: Config, s: State, length: nat, st: Step): State
    requires Enabled(cfg, s, length, st)
  {
    match st
    case Start => s.(session := Fetching(s.committed))
    case Fetch => s.(session := Fetching(s.session.next + 1))
    case Process => s.(session := Processing(s.session.next, Untried(s.committed, s.session.next)))
    case Attempt(x, outcome) =>
      s.(session := s.session.(work := s.session.work[x := AfterCall(cfg, s.session.work[x].calls, outcome)]),
         handled := if outcome == Ok then s.handled + {x} else s.handled)
    case Park(x, fault) =>
      // A dead-letter write that reports failure ends the session, whether or not it was stored.
      s.(session := if fault == Clean then s.session.(work := s.session.work[x := Settled]) else Down,
         parked := if fault == RolledBack then s.parked else s.parked + {x})
    case CommitOffsets(fault) =>
      s.(committed := if fault == RolledBack then s.committed else s.session.next,
         session := if fault == Clean then Fetching(s.session.next) else Down)
    case Stop => s.(session := Down)
  }

  ghost predicate Covered(s: State, x: nat) {
    x in s.handled || x in s.parked
  }

  ghost predicate Inv(cfg: Config, s: State, length: nat) {
    && s.committed <= length
    && (forall x: nat :: x < s.committed ==> Covered(s, x))
    && (forall x :: x in s.handled || x in s.parked ==> x < length)
    && match s.session
       case Down => true
       case Fetching(next) => s.committed <= next <= length
       case Processing(next, work) =>
         && s.committed <= next <= length
         && (forall x :: x in work <==> s.committed <= x < next)
         && (forall x :: x in work && work[x].Settled? ==> Covered(s, x))
         && (forall x :: x in work && work[x].Trying? ==> work[x].calls < cfg.maxAttempts)
  }

  /** The committed offset never passes a message that was neither handled nor parked, whatever fails when. */
  lemma {:induction false} StepInv(cfg: Config, s: State, length: nat, st: Step)
    requires ValidConfig(cfg) && Inv(cfg, s, length) && Enabled(cfg, s, length, st)
    ensures Inv(cfg, Do(cfg, s, length, st), length)
    ensures s.committed <= Do(cfg, s, length, st).committed
    ensures s.handled <= Do(cfg, s, length, st).handled && s.parked <= Do(cfg, s, length, st).parked
  {
    var t := Do(cfg, s, length, st);
    forall x: nat | x < t.committed ensures Covered(t, x) {
      if x < s.committed { assert Covered(s, x); } else { assert x in s.session.work; }
    }
    if t.session.Processing? {
      forall x | x in t.session.work && t.session.work[x].Settled? ensures Covered(t, x) {
        if s.session.Processing? && s.session.work[x].Settled? { assert Covered(s, x); }
      }
    }
  }

  // ---- whole runs, with the topic growing meanwhile ----

  datatype Moment = Moment(state: State, length: nat)

  ghost predicate Next(cfg: Config, a: Moment, b: Moment) {
    || (b.state == a.state && b.length >= a.length)
    || (b.length == a.length && exists st :: Enabled(cfg, a.state, a.length, st) && b.state == Do(cfg, a.state, a.length, st))
  }

  ghost predicate Linked(cfg: Config, run: seq<Moment>, i: int)
    requires 0 < i < |run|
  {
    Next(cfg, run[i - 1], run[i])
  }

  ghost predicate IsRun(cfg: Config, run: seq<Moment>) {
    ValidConfig(cfg) && run != [] && run[0].state == INIT && forall i :: 0 < i < |run| ==> Linked(cfg, run, i)
  }

  lemma {:induction false} RunInv(cfg: Config, run: seq<Moment>, i: nat)
    requires IsRun(cfg, run) && i < |run|
    ensures Inv(cfg, run[i].state, run[i].length)
  {
    if i > 0 {
      RunInv(cfg, run, i - 1);
      assert Linked(cfg, run, i);
      var a := run[i - 1];
      if !(run[i].state == a.state && run[i].length >= a.length) {
        var st :| Enabled(cfg, a.state, a.length, st) && run[i].state == Do(cfg, a.state, a.length, st);
        StepInv(cfg, a.state, a.length, st);
      }
    }
  }

  /** In every run, a message the committed offset has passed was handled or parked, and stays so; the offset never goes back. */
  lemma {:induction false} CommittedMeansDone(cfg: Config, run: seq<Moment>, i: nat, j: nat)
    requires IsRun(cfg, run) && i <= j < |run|
    ensures run[i].state.committed <= run[j].state.committed
    ensures forall x: nat :: x < run[i].state.committed ==> Covered(run[i].state, x) && Covered(run[j].state, x)
    decreases j
  {
    RunInv(cfg, run, i);
    if i < j {
      CommittedMeansDone(cfg, run, i, j - 1);
      RunInv(cfg, run, j - 1);
      RunInv(cfg, run, j);
      assert Linked(cfg, run, j);
      var a := run[j - 1];
      if !(run[j].state == a.state && run[j].length >= a.length) {
        var st :| Enabled(cfg, a.state, a.length, st) && run[j].state == Do(cfg, a.state, a.length, st);
        StepInv(cfg, a.state, a.length, st);
      }
    }
  }
}
