/**
 * Refresh-token rotation with transactions running side by side: statements lock rows, a transaction's writes appear
 * when it commits, and the statement that revokes all of a user's tokens sees only the rows committed when it starts.
 */
module TokenLocks {
  import opened Domain
  import opened TokenStore
  import opened Sums

  type TxId = nat

  /** An open Refresh, by what its SELECT ... FOR UPDATE found. `since` is history: the step that began the statement. */
  datatype Tx =
    | Trading(id: TokenId, user: nat, next: TokenId, expires: int)
    | Reusing(id: TokenId, user: nat)
    | Revoking(id: TokenId, user: nat, since: nat, todo: set<TokenId>, locked: set<TokenId>)

  /** `login` is history: for each token, the number of the login its line of refreshes goes back to. */
  datatype State = State(tokens: map<TokenId, Token>, login: map<TokenId, nat>, txs: map<TxId, Tx>)

  const INIT := State(map[], map[], map[])

  function Locks(tx: Tx): set<TokenId> {
    if tx.Revoking? then tx.locked else {tx.id}
  }

  ghost predicate Free(s: State, t: TokenId) {
    forall x :: x in s.txs ==> t !in Locks(s.txs[x])
  }

  /** New tokens are random, so unlike any other. */
  ghost predicate Unused(s: State, t: TokenId) {
    t !in s.tokens && forall x :: x in s.txs && s.txs[x].Trading? ==> s.txs[x].next != t
  }

  function TokensOf(tokens: map<TokenId, Token>, user: nat): set<TokenId> {
    set t | t in tokens && tokens[t].user == user
  }

  function RevokeThese(tokens: map<TokenId, Token>, ids: set<TokenId>): map<TokenId, Token> {
    map t | t in tokens :: if t in ids then tokens[t].(revoked := true) else tokens[t]
  }

  // ---- steps ----

  /** A Refresh whose token is unknown or expired changes nothing and is no step. */
  datatype Step =
    | DoLogin(user: nat, now: int, next: TokenId)
    | DoLogout(id: TokenId)
    | Present(tx: TxId, id: TokenId, now: int, next: TokenId)
    | StartRevoke(tx: TxId)
    | LockRow(tx: TxId, id: TokenId)
    | CommitTrade(tx: TxId)
    | CommitRevoke(tx: TxId)
    | Abort(tx: TxId)

  ghost predicate Enabled(s: State, st: Step) {
    match st
    case DoLogin(_, _, next) => Unused(s, next)
    case DoLogout(id) => Free(s, id)
    case Present(x, id, now, next) =>
      && x !in s.txs && id in s.tokens && Free(s, id)
      && (s.tokens[id].revoked || (now <= s.tokens[id].expires && Unused(s, next)))
    case StartRevoke(x) => x in s.txs && s.txs[x].Reusing?
    case LockRow(x, t) =>
      x in s.txs && s.txs[x].Revoking? && t in s.txs[x].todo && forall y :: y in s.txs && y != x ==> t !in Locks(s.txs[y])
    case CommitTrade(x) => x in s.txs && s.txs[x].Trading? && s.txs[x].id in s.tokens && s.txs[x].id in s.login
    case CommitRevoke(x) => x in s.txs && s.txs[x].Revoking? && s.txs[x].todo == {}
    case Abort(x) => x in s.txs
  }

  ghost function Do(s: State, st: Step, n: nat): State
    requires Enabled(s, st)
  {
    match st
    case DoLogin(user, now, next) => s.(tokens := Issue(s.tokens, user, now, next), login := s.login[next := n])
    case DoLogout(id) => s.(tokens := Revoke(s.tokens, id))
    case Present(x, id, now, next) =>
      var row := s.tokens[id];
      s.(txs := s.txs[x := if row.revoked then Reusing(id, row.user) else Trading(id, row.user, next, now + REFRESH_TOKEN_TTL)])
    case StartRevoke(x) =>
      var Reusing(id, user) := s.txs[x];
      s.(txs := s.txs[x := Revoking(id, user, n, TokensOf(s.tokens, user) - {id}, {id})])
    case LockRow(x, t) =>
      s.(txs := s.txs[x := s.txs[x].(todo := s.txs[x].todo - {t}, locked := s.txs[x].locked + {t})])
    case CommitTrade(x) =>
      var Trading(id, user, next, expires) := s.txs[x];
      State(Revoke(s.tokens, id)[next := Token(user, false, expires)], s.login[next := s.login[id]], s.txs - {x})
    case CommitRevoke(x) => s.(tokens := RevokeThese(s.tokens, s.txs[x].locked), txs := s.txs - {x})
    case Abort(x) => s.(txs := s.txs - {x})
  }

  ghost predicate Linked(run: seq<State>, steps: seq<Step>, i: nat)
    requires i < |steps| && i + 1 < |run|
  {
    Enabled(run[i], steps[i]) && run[i + 1] == Do(run[i], steps[i], i)
  }

  ghost predicate IsRun(run: seq<State>, steps: seq<Step>) {
    && |run| == |steps| + 1 && run[0] == INIT
    && forall i: nat | i < |steps| :: Linked(run, steps, i)
  }

  // ---- the invariant ----

  ghost predicate Live(s: State, t: TokenId) {
    t in s.tokens && !s.tokens[t].revoked
  }

  ghost predicate Lined(s: State) {
    s.login.Keys == s.tokens.Keys
  }

  ghost predicate SameLine(s: State, t: TokenId, v: TokenId) {
    t in s.login && v in s.login && s.login[t] == s.login[v]
  }

  /** One login, one live token; and a login's tokens are all of one user. */
  ghost predicate LinePair(s: State, t: TokenId, v: TokenId) {
    SameLine(s, t, v) && t in s.tokens && v in s.tokens ==>
      s.tokens[t].user == s.tokens[v].user && (Live(s, t) && Live(s, v) ==> t == v)
  }

  ghost predicate LinesOk(s: State) {
    Lined(s) && forall t, v :: LinePair(s, t, v)
  }

  /** What an open transaction read still stands. */
  ghost predicate TxOk(s: State, x: TxId) {
    x in s.txs ==>
      match s.txs[x]
      case Trading(id, user, next, _) => Live(s, id) && s.tokens[id].user == user && next !in s.tokens
      case Reusing(id, user) => id in s.tokens && s.tokens[id].revoked && s.tokens[id].user == user
      case Revoking(id, user, _, todo, locked) =>
        id in s.tokens && s.tokens[id].revoked && s.tokens[id].user == user && todo + locked <= TokensOf(s.tokens, user)
  }

  ghost predicate Apart(s: State, x: TxId, y: TxId) {
    x in s.txs && y in s.txs && x != y ==>
      Locks(s.txs[x]) !! Locks(s.txs[y]) && (s.txs[x].Trading? && s.txs[y].Trading? ==> s.txs[x].next != s.txs[y].next)
  }

  ghost predicate TxsOk(s: State) {
    (forall x :: TxOk(s, x)) && (forall x, y :: Apart(s, x, y))
  }

  ghost predicate Inv(s: State) {
    LinesOk(s) && TxsOk(s)
  }

  /** A step changes at most one transaction's entry, or removes it. */
  ghost predicate SameTx(s: State, u: State, x: TxId) {
    x in u.txs ==> x in s.txs && u.txs[x] == s.txs[x]
  }

  /** Rows are kept, with their user; no locked row of an open trade is revoked. */
  ghost predicate RowsKept(s: State, u: State) {
    && s.tokens.Keys <= u.tokens.Keys
    && (forall t :: t in s.tokens ==> u.tokens[t].user == s.tokens[t].user && (s.tokens[t].revoked ==> u.tokens[t].revoked))
  }

  lemma TxStays(s: State, u: State, x: TxId)
    requires TxOk(s, x) && SameTx(s, u, x) && RowsKept(s, u)
    requires x in u.txs && u.txs[x].Trading? ==> Live(u, u.txs[x].id) && u.txs[x].next !in u.tokens
    ensures TxOk(u, x)
  {
  }

  // ---- the tables ----

  lemma LoginLines(s: State, user: nat, now: int, next: TokenId, n: nat)
    requires Inv(s) && Enabled(s, DoLogin(user, now, next)) && forall t :: t in s.login ==> s.login[t] < n
    ensures LinesOk(Do(s, DoLogin(user, now, next), n))
  {
    var u := Do(s, DoLogin(user, now, next), n);
    forall t, v ensures LinePair(u, t, v) { assert LinePair(s, t, v); }
  }

  lemma RevokedLines(s: State, u: State)
    requires LinesOk(s) && u.login == s.login && u.tokens.Keys == s.tokens.Keys && RowsKept(s, u)
    ensures LinesOk(u)
  {
    forall t, v ensures LinePair(u, t, v) { assert LinePair(s, t, v); }
  }

  lemma TradeLines(s: State, x: TxId, n: nat)
    requires Inv(s) && Enabled(s, CommitTrade(x))
    ensures LinesOk(Do(s, CommitTrade(x), n))
  {
    var u, id, next := Do(s, CommitTrade(x), n), s.txs[x].id, s.txs[x].next;
    assert TxOk(s, x);
    forall t, v ensures LinePair(u, t, v) {
      assert LinePair(s, t, v) && LinePair(s, if t == next then id else t, if v == next then id else v);
    }
  }

  lemma StepLines(s: State, st: Step, n: nat)
    requires Inv(s) && Enabled(s, st) && forall t :: t in s.login ==> s.login[t] < n
    ensures LinesOk(Do(s, st, n)) && forall t :: t in Do(s, st, n).login ==> Do(s, st, n).login[t] <= n
  {
    match st
    case DoLogin(user, now, next) => LoginLines(s, user, now, next, n);
    case CommitTrade(x) => TradeLines(s, x, n);
    case _ => RevokedLines(s, Do(s, st, n));
  }

  // ---- the transactions ----

  lemma StepKeepsRows(s: State, st: Step, n: nat)
    requires Inv(s) && Enabled(s, st)
    ensures RowsKept(s, Do(s, st, n))
  {
    if st.CommitTrade? { assert TxOk(s, st.tx); }
  }

  /** Only the holder of a row's lock can change it, and nobody else uses a new token's id. */
  lemma TradeStands(s: State, st: Step, n: nat, x: TxId)
    requires Inv(s) && Enabled(s, st) && x in s.txs && s.txs[x].Trading?
    requires !(st.CommitTrade? && st.tx == x)
    ensures Live(Do(s, st, n), s.txs[x].id) && s.txs[x].next !in Do(s, st, n).tokens
  {
    assert TxOk(s, x);
    if (st.CommitTrade? || st.CommitRevoke?) && st.tx != x { assert Apart(s, st.tx, x) && TxOk(s, st.tx); }
    if st.DoLogout? { assert s.txs[x].id in Locks(s.txs[x]); }
  }

  /** The one transaction a step opens or moves on. */
  ghost predicate Touches(st: Step, x: TxId) {
    match st
    case Present(y, _, _, _) => x == y
    case StartRevoke(y) => x == y
    case LockRow(y, _) => x == y
    case _ => false
  }

  lemma StepTx(s: State, st: Step, n: nat, x: TxId)
    requires Inv(s) && Enabled(s, st)
    ensures TxOk(Do(s, st, n), x)
  {
    var u := Do(s, st, n);
    assert TxOk(s, x);
    StepKeepsRows(s, st, n);
    if !Touches(st, x) {
      if x in u.txs && u.txs[x].Trading? { TradeStands(s, st, n, x); }
      TxStays(s, u, x);
    }
  }

  lemma StepApart(s: State, st: Step, n: nat, x: TxId, y: TxId)
    requires Inv(s) && Enabled(s, st)
    ensures Apart(Do(s, st, n), x, y)
  {
    assert Apart(s, x, y) && Apart(s, y, x);
  }

  lemma StepInv(s: State, st: Step, n: nat)
    requires Inv(s) && Enabled(s, st) && forall t :: t in s.login ==> s.login[t] < n
    ensures Inv(Do(s, st, n)) && forall t :: t in Do(s, st, n).login ==> Do(s, st, n).login[t] <= n
  {
    StepLines(s, st, n);
    forall x ensures TxOk(Do(s, st, n), x) { StepTx(s, st, n, x); }
    forall x, y ensures Apart(Do(s, st, n), x, y) { StepApart(s, st, n, x, y); }
  }

  lemma InitInv()
    ensures Inv(INIT)
  {
    forall t, v ensures LinePair(INIT, t, v) {}
    forall x ensures TxOk(INIT, x) {}
    forall x, y ensures Apart(INIT, x, y) {}
  }

  lemma {:induction false} RunInv(run: seq<State>, steps: seq<Step>, n: nat)
    requires IsRun(run, steps) && n <= |steps|
    ensures Inv(run[n]) && forall t :: t in run[n].login ==> run[n].login[t] < n
  {
    if n == 0 {
      InitInv();
    } else {
      RunInv(run, steps, n - 1);
      assert Linked(run, steps, n - 1);
      StepInv(run[n - 1], steps[n - 1], n - 1);
    }
  }

  // ---- tokens over a run ----

  /** A row stays in the table, with its user and its login, and revoked once it is. */
  lemma {:induction false} RevocationLasts(run: seq<State>, steps: seq<Step>, i: nat, j: nat, t: TokenId)
    requires IsRun(run, steps) && i <= j <= |steps| && t in run[i].tokens
    ensures t in run[j].tokens && run[j].tokens[t].user == run[i].tokens[t].user
    ensures run[i].tokens[t].revoked ==> run[j].tokens[t].revoked
    ensures t in run[i].login && t in run[j].login && run[j].login[t] == run[i].login[t]
    decreases j
  {
    RunInv(run, steps, j);
    if i < j {
      RevocationLasts(run, steps, i, j - 1, t);
      RunInv(run, steps, j - 1);
      assert Linked(run, steps, j - 1);
      StepKeeps(run[j - 1], steps[j - 1], j - 1, t);
    }
  }

  lemma StepKeeps(s: State, st: Step, n: nat, t: TokenId)
    requires Inv(s) && Enabled(s, st) && t in s.tokens
    ensures var u := Do(s, st, n);
      && t in u.tokens && u.tokens[t].user == s.tokens[t].user && (s.tokens[t].revoked ==> u.tokens[t].revoked)
      && t in s.login && t in u.login && u.login[t] == s.login[t]
  {
    StepKeepsRows(s, st, n);
    if st.CommitTrade? { assert TxOk(s, st.tx); }
  }

  /** The step commits a trade of this token. */
  ghost predicate Trades(s: State, st: Step, t: TokenId) {
    st.CommitTrade? && st.tx in s.txs && s.txs[st.tx].Trading? && s.txs[st.tx].id == t
  }

  lemma TradeIsLast(run: seq<State>, steps: seq<Step>, i: nat, j: nat, t: TokenId)
    requires IsRun(run, steps) && i < j < |steps| && Trades(run[i], steps[i], t)
    ensures !Trades(run[j], steps[j], t)
  {
    RunInv(run, steps, i);
    assert TxOk(run[i], steps[i].tx);
    assert Linked(run, steps, i);
    assert run[i + 1].tokens[t].revoked;
    RevocationLasts(run, steps, i + 1, j, t);
    RunInv(run, steps, j);
    if steps[j].CommitTrade? { assert TxOk(run[j], steps[j].tx); }
  }

  /** In any run, whatever is open at the same time, a token is traded at most once. */
  lemma TradedAtMostOnce(run: seq<State>, steps: seq<Step>, i: nat, j: nat, t: TokenId)
    requires IsRun(run, steps) && i < |steps| && j < |steps| && Trades(run[i], steps[i], t) && Trades(run[j], steps[j], t)
    ensures i == j
  {
    if i < j { TradeIsLast(run, steps, i, j, t); }
    if j < i { TradeIsLast(run, steps, j, i, t); }
  }

  lemma NewIsLive(run: seq<State>, steps: seq<Step>, j: nat, t: TokenId)
    requires IsRun(run, steps) && 0 < j <= |steps| && t in run[j].tokens && t !in run[j - 1].tokens
    ensures Live(run[j], t)
  {
    assert Linked(run, steps, j - 1);
  }

  /** A login's tokens form a chain: once a newer one of the same login exists, an older one is revoked. */
  lemma {:induction false} OnlyTheLastIsLive(run: seq<State>, steps: seq<Step>, i: nat, j: nat, older: TokenId, newer: TokenId)
    requires IsRun(run, steps) && i < j <= |steps|
    requires older in run[i].tokens && newer !in run[i].tokens && newer in run[j].tokens
    requires older in run[i].login && newer in run[j].login && run[j].login[newer] == run[i].login[older]
    ensures older in run[j].tokens && run[j].tokens[older].revoked
    decreases j
  {
    RevocationLasts(run, steps, i, j, older);
    if newer in run[j - 1].tokens {
      RevocationLasts(run, steps, j - 1, j, newer);
      OnlyTheLastIsLive(run, steps, i, j - 1, older, newer);
      RevocationLasts(run, steps, j - 1, j, older);
    } else {
      NewIsLive(run, steps, j, newer);
      RunInv(run, steps, j);
      assert LinePair(run[j], older, newer);
    }
  }

  ghost function Logins(steps: seq<Step>, n: nat, user: nat): set<nat>
    requires n <= |steps|
  {
    set i: nat | i < n && steps[i].DoLogin? && steps[i].user == user
  }

  ghost predicate Kin(s: State, line: nat, user: nat, v: TokenId) {
    v in s.tokens && v in s.login && s.login[v] == line && s.tokens[v].user == user
  }

  ghost predicate HasKin(s: State, line: nat, user: nat) {
    exists v :: Kin(s, line, user, v)
  }

  lemma StepStartsAtLogin(run: seq<State>, steps: seq<Step>, n: nat, t: TokenId)
    requires IsRun(run, steps) && 0 < n <= |steps| && t in run[n].tokens && t !in run[n - 1].tokens
    ensures t in run[n].login
    ensures (steps[n - 1].DoLogin? && steps[n - 1].user == run[n].tokens[t].user && run[n].login[t] == n - 1)
      || HasKin(run[n - 1], run[n].login[t], run[n].tokens[t].user)
  {
    RunInv(run, steps, n - 1);
    var s := run[n - 1];
    assert Linked(run, steps, n - 1);
    if steps[n - 1].CommitTrade? {
      assert TxOk(s, steps[n - 1].tx);
      assert Kin(s, run[n].login[t], run[n].tokens[t].user, s.txs[steps[n - 1].tx].id);
    }
  }

  /** Every token goes back to a login of its own user. */
  lemma {:induction false} LineStartsAtLogin(run: seq<State>, steps: seq<Step>, n: nat, t: TokenId)
    requires IsRun(run, steps) && n <= |steps| && t in run[n].tokens
    ensures t in run[n].login && run[n].login[t] in Logins(steps, n, run[n].tokens[t].user)
    decreases n
  {
    if t in run[n - 1].tokens {
      LineStartsAtLogin(run, steps, n - 1, t);
      RevocationLasts(run, steps, n - 1, n, t);
    } else {
      StepStartsAtLogin(run, steps, n, t);
      if HasKin(run[n - 1], run[n].login[t], run[n].tokens[t].user) {
        var v :| Kin(run[n - 1], run[n].login[t], run[n].tokens[t].user, v);
        LineStartsAtLogin(run, steps, n - 1, v);
      }
    }
  }

  ghost function LiveOf(s: State, user: nat): set<TokenId> {
    set t | t in s.tokens && Live(s, t) && s.tokens[t].user == user
  }

  /** A user never has more live tokens than times they logged in. */
  lemma LiveTokensBoundedByLogins(run: seq<State>, steps: seq<Step>, n: nat, user: nat)
    requires IsRun(run, steps) && n <= |steps|
    ensures |LiveOf(run[n], user)| <= |Logins(steps, n, user)|
  {
    RunInv(run, steps, n);
    var s := run[n];
    var live := LiveOf(s, user);
    forall t | t in live ensures s.login[t] in Logins(steps, n, user) { LineStartsAtLogin(run, steps, n, t); }
    forall t, v | t in live && v in live && s.login[t] == s.login[v] ensures t == v { assert LinePair(s, t, v); }
    NoMoreNames(live, (t: nat) => if t in s.login then s.login[t] else 0, Logins(steps, n, user));
  }

  // ---- what presenting a used token ends ----

  ghost predicate DeadLine(s: State, line: nat) {
    forall t :: OffLine(s, line, t)
  }

  ghost predicate OffLine(s: State, line: nat, t: TokenId) {
    Live(s, t) && t in s.login ==> s.login[t] != line
  }

  /** A line of refreshes that has lost its live token never gets another: a trade holds the lock on a live one. */
  lemma {:induction false} DeadLineStaysDead(run: seq<State>, steps: seq<Step>, i: nat, j: nat, line: nat)
    requires IsRun(run, steps) && i <= j <= |steps| && line < i && DeadLine(run[i], line)
    ensures DeadLine(run[j], line)
    decreases j
  {
    if i < j {
      DeadLineStaysDead(run, steps, i, j - 1, line);
      RunInv(run, steps, j - 1);
      assert Linked(run, steps, j - 1);
      StepKeepsDead(run[j - 1], steps[j - 1], j - 1, line);
    }
  }

  lemma StepKeepsDead(s: State, st: Step, n: nat, line: nat)
    requires Inv(s) && Enabled(s, st) && line < n && DeadLine(s, line)
    ensures DeadLine(Do(s, st, n), line)
  {
    var u := Do(s, st, n);
    if st.CommitTrade? { assert TxOk(s, st.tx) && OffLine(s, line, s.txs[st.tx].id); }
    forall t ensures OffLine(u, line, t) { assert OffLine(s, line, t); }
  }

  /** The rows the statement goes through are those that were committed when it began. */
  lemma {:induction false} SnapshotStands(run: seq<State>, steps: seq<Step>, j: nat, x: TxId)
    requires IsRun(run, steps) && j <= |steps| && x in run[j].txs && run[j].txs[x].Revoking?
    ensures var tx := run[j].txs[x];
      tx.since < j && steps[tx.since] == StartRevoke(x) && tx.todo + tx.locked == TokensOf(run[tx.since].tokens, tx.user)
    decreases j
  {
    var s, st := run[j - 1], steps[j - 1];
    assert Linked(run, steps, j - 1);
    if st == StartRevoke(x) {
      RunInv(run, steps, j - 1);
      assert TxOk(s, x);
    } else {
      SnapshotStands(run, steps, j - 1, x);
    }
  }

  /** A trade on this line is committed at step k. */
  ghost predicate TradesOn(run: seq<State>, steps: seq<Step>, k: nat, line: nat)
    requires k < |steps| && k < |run|
  {
    var s := run[k];
    steps[k].CommitTrade? && steps[k].tx in s.txs && s.txs[steps[k].tx].id in s.login && s.login[s.txs[steps[k].tx].id] == line
  }

  ghost predicate TradedBetween(run: seq<State>, steps: seq<Step>, i: nat, c: nat, line: nat)
    requires c < |run| && c <= |steps|
  {
    exists k :: i < k < c && TradesOn(run, steps, k, line)
  }

  /** Without a trade a line gets no new token. */
  lemma {:induction false} LineGrowsByTrades(run: seq<State>, steps: seq<Step>, i: nat, c: nat, t: TokenId)
    requires IsRun(run, steps) && i < c <= |steps| && steps[i].StartRevoke? && t in run[c].tokens && t in run[c].login
    requires run[c].login[t] < i && !TradedBetween(run, steps, i, c, run[c].login[t])
    ensures t in run[i].tokens
    decreases c
  {
    var line := run[c].login[t];
    assert Linked(run, steps, c - 1);
    if t in run[c - 1].tokens {
      RevocationLasts(run, steps, c - 1, c, t);
      if c - 1 > i {
        assert !TradedBetween(run, steps, i, c - 1, line);
        LineGrowsByTrades(run, steps, i, c - 1, t);
      }
    } else {
      RunInv(run, steps, c - 1);
      assert steps[c - 1].CommitTrade? && c - 1 != i;
      assert TradesOn(run, steps, c - 1, line);
    }
  }

  /** A trade leaves every token its line had before it revoked. */
  lemma TradeOvertakes(run: seq<State>, steps: seq<Step>, k: nat, c: nat, v: TokenId)
    requires IsRun(run, steps) && k < c <= |steps| && v in run[k].tokens && v in run[k].login
    requires TradesOn(run, steps, k, run[k].login[v])
    ensures v in run[c].tokens && run[c].tokens[v].revoked
  {
    RunInv(run, steps, k);
    assert Linked(run, steps, k);
    var id := run[k].txs[steps[k].tx].id;
    assert TxOk(run[k], steps[k].tx) && LinePair(run[k], v, id);
    assert run[k + 1].tokens[v].revoked;
    RevocationLasts(run, steps, k + 1, c, v);
  }

  /** So the line's live token is one that was not there before. */
  lemma TradeRenews(run: seq<State>, steps: seq<Step>, i: nat, k: nat, c: nat, v: TokenId)
    requires IsRun(run, steps) && i < k < c <= |steps| && Live(run[c], v) && v in run[c].login
    requires TradesOn(run, steps, k, run[c].login[v])
    ensures v !in run[i].tokens
  {
    if v in run[i].tokens {
      RevocationLasts(run, steps, i, k, v);
      RevocationLasts(run, steps, k, c, v);
      TradeOvertakes(run, steps, k, c, v);
    }
  }

  /** The revoke-all that began at step i is committed at step c. */
  ghost predicate RevokesAll(run: seq<State>, steps: seq<Step>, i: nat, c: nat, x: TxId, user: nat) {
    && i < c < |steps| && c < |run| && steps[c] == CommitRevoke(x)
    && x in run[c].txs && run[c].txs[x].Revoking? && run[c].txs[x].since == i && run[c].txs[x].user == user
  }

  lemma RevokesSnapshot(run: seq<State>, steps: seq<Step>, i: nat, c: nat, x: TxId, user: nat, v: TokenId)
    requires IsRun(run, steps) && RevokesAll(run, steps, i, c, x, user) && Live(run[c], v) && run[c].tokens[v].user == user
    ensures steps[i].StartRevoke?
    ensures Live(run[c + 1], v) <==> v !in run[i].tokens
  {
    SnapshotStands(run, steps, c, x);
    var s := run[c];
    assert Linked(run, steps, c);
    assert s.txs[x].locked == TokensOf(run[i].tokens, user);
    if v in run[i].tokens { RevocationLasts(run, steps, i, c, v); }
  }

  /**
   * The exact rule: presenting a used token ends one of the user's sessions, live until then and begun before the
   * revocation, if and only if no refresh of that session was committed while the revoking statement ran.
   */
  lemma ReuseEndsSessionExactly(run: seq<State>, steps: seq<Step>, i: nat, c: nat, x: TxId, user: nat, v: TokenId)
    requires IsRun(run, steps) && RevokesAll(run, steps, i, c, x, user) && Live(run[c], v) && run[c].tokens[v].user == user
    requires v in run[c].login && run[c].login[v] < i
    ensures DeadLine(run[c + 1], run[c].login[v]) <==> !TradedBetween(run, steps, i, c, run[c].login[v])
  {
    var line := run[c].login[v];
    RevokesSnapshot(run, steps, i, c, x, user, v);
    if TradedBetween(run, steps, i, c, line) {
      var k :| i < k < c && TradesOn(run, steps, k, line);
      TradeRenews(run, steps, i, k, c, v);
      RevocationLasts(run, steps, c, c + 1, v);
      assert !OffLine(run[c + 1], line, v);
    } else {
      LineGrowsByTrades(run, steps, i, c, v);
      LineDies(run, steps, c, v);
    }
  }

  /** Once its live token is revoked by the step, the line is dead. */
  lemma LineDies(run: seq<State>, steps: seq<Step>, c: nat, v: TokenId)
    requires IsRun(run, steps) && c < |steps| && steps[c].CommitRevoke? && Live(run[c], v) && v in run[c].login
    requires !Live(run[c + 1], v)
    ensures DeadLine(run[c + 1], run[c].login[v])
  {
    RunInv(run, steps, c);
    var s, u := run[c], run[c + 1];
    assert Linked(run, steps, c);
    forall t ensures OffLine(u, s.login[v], t) { assert LinePair(s, t, v); }
  }

  /** No refresh of this user is committed while the statement runs. */
  ghost predicate NoTradeBy(run: seq<State>, steps: seq<Step>, i: nat, c: nat, user: nat)
    requires c <= |steps| && c < |run|
  {
    forall k :: i < k < c ==> !TradesFor(run, steps, k, user)
  }

  ghost predicate TradesFor(run: seq<State>, steps: seq<Step>, k: nat, user: nat)
    requires k < |steps| && k < |run|
  {
    steps[k].CommitTrade? && steps[k].tx in run[k].txs && run[k].txs[steps[k].tx].user == user
  }

  lemma LineIsTheUsers(run: seq<State>, steps: seq<Step>, k: nat, c: nat, t: TokenId)
    requires IsRun(run, steps) && k < c <= |steps| && t in run[c].tokens && t in run[c].login
    requires TradesOn(run, steps, k, run[c].login[t])
    ensures TradesFor(run, steps, k, run[c].tokens[t].user)
  {
    RunInv(run, steps, k);
    var s := run[k];
    assert Linked(run, steps, k);
    assert TxOk(s, steps[k].tx);
    var id := s.txs[steps[k].tx].id;
    RevocationLasts(run, steps, k, c, id);
    RunInv(run, steps, c);
    assert LinePair(run[c], id, t);
  }

  /** So if none is, then from the commit on the user's only live tokens are those of logins made after it began. */
  lemma ReuseEndsEverySession(run: seq<State>, steps: seq<Step>, i: nat, c: nat, x: TxId, user: nat, j: nat, t: TokenId)
    requires IsRun(run, steps) && RevokesAll(run, steps, i, c, x, user) && NoTradeBy(run, steps, i, c, user)
    requires c < j <= |steps| && Live(run[j], t) && run[j].tokens[t].user == user
    ensures t in run[j].login && run[j].login[t] > i
  {
    RunInv(run, steps, j);
    SnapshotStands(run, steps, c, x);
    LineStartsAtLogin(run, steps, j, t);
    var line := run[j].login[t];
    assert DeadLine(run[j], line) ==> OffLine(run[j], line, t);
    if line < i {
      if v :| Live(run[c], v) && v in run[c].login && run[c].login[v] == line {
        RevocationLasts(run, steps, c, j, v);
        assert LinePair(run[j], v, t);
        if k :| i < k < c && TradesOn(run, steps, k, line) { LineIsTheUsers(run, steps, k, c, v); }
        ReuseEndsSessionExactly(run, steps, i, c, x, user, v);
        DeadLineStaysDead(run, steps, c + 1, j, line);
      } else {
        forall v ensures OffLine(run[c], line, v) {}
        DeadLineStaysDead(run, steps, c, j, line);
      }
    }
  }

  /** No refresh of the user's is open when the statement starts, and none is presented before it is committed. */
  ghost predicate QuietWindow(run: seq<State>, steps: seq<Step>, i: nat, c: nat, user: nat)
    requires c <= |steps| && c < |run|
  {
    && (forall x :: i < |run| && x in run[i].txs && run[i].txs[x].Trading? ==> run[i].txs[x].user != user)
    && (forall k :: i < k < c ==> !Presents(run[k], steps[k], user))
  }

  ghost predicate Presents(s: State, st: Step, user: nat) {
    st.Present? && st.id in s.tokens && s.tokens[st.id].user == user && !s.tokens[st.id].revoked
  }

  ghost predicate NoneOpen(s: State, user: nat) {
    forall x :: x in s.txs && s.txs[x].Trading? ==> s.txs[x].user != user
  }

  lemma {:induction false} StaysQuiet(run: seq<State>, steps: seq<Step>, i: nat, c: nat, user: nat, k: nat)
    requires IsRun(run, steps) && i < k <= c <= |steps| && steps[i].StartRevoke? && QuietWindow(run, steps, i, c, user)
    ensures NoneOpen(run[k], user)
    decreases k
  {
    assert Linked(run, steps, k - 1);
    if k - 1 > i {
      StaysQuiet(run, steps, i, c, user, k - 1);
      assert !Presents(run[k - 1], steps[k - 1], user);
    }
  }

  /** A condition that can be seen from outside: a quiet window lets no refresh commit. */
  lemma QuietWindowSuffices(run: seq<State>, steps: seq<Step>, i: nat, c: nat, user: nat)
    requires IsRun(run, steps) && i < c <= |steps| && steps[i].StartRevoke? && QuietWindow(run, steps, i, c, user)
    ensures NoTradeBy(run, steps, i, c, user)
  {
    forall k | i < k < c ensures !TradesFor(run, steps, k, user) {
      StaysQuiet(run, steps, i, c, user, k);
      assert Linked(run, steps, k);
    }
  }

  // ---- with nothing else open, the statements do what the whole operation does ----

  lemma TradeAlone(s: State, x: TxId, id: TokenId, now: int, next: TokenId, n: nat)
    requires Inv(s) && s.txs == map[] && id in s.tokens && !s.tokens[id].revoked && now <= s.tokens[id].expires && next !in s.tokens
    ensures Enabled(s, Present(x, id, now, next))
    ensures var open := Do(s, Present(x, id, now, next), n);
      && Enabled(open, CommitTrade(x))
      && Do(open, CommitTrade(x), n + 1).tokens == Refreshed(s.tokens, id, now, next).0
      && Do(open, CommitTrade(x), n + 1).txs == map[]
  {
  }

  /** A token is taken up exactly if it is known and either used before or still good; otherwise the whole call changes nothing. */
  lemma PresentedExactly(s: State, x: TxId, id: TokenId, now: int, next: TokenId)
    requires s.txs == map[] && next !in s.tokens
    ensures Enabled(s, Present(x, id, now, next)) <==> id in s.tokens && (s.tokens[id].revoked || now <= s.tokens[id].expires)
    ensures !Enabled(s, Present(x, id, now, next)) ==> Refreshed(s.tokens, id, now, next).0 == s.tokens
  {
  }

  lemma ReuseAlone(tokens: map<TokenId, Token>, id: TokenId, now: int, next: TokenId)
    requires id in tokens && tokens[id].revoked
    ensures RevokeThese(tokens, TokensOf(tokens, tokens[id].user)) == Refreshed(tokens, id, now, next).0
  {
  }

  // ---- two interleavings in which a session survives ----

  lemma Extend(run: seq<State>, steps: seq<Step>, st: Step)
    requires IsRun(run, steps) && Enabled(run[|steps|], st)
    ensures IsRun(run + [Do(run[|steps|], st, |steps|)], steps + [st])
  {
    var longer, more := run + [Do(run[|steps|], st, |steps|)], steps + [st];
    forall i: nat | i < |more| ensures Linked(longer, more, i) {
      if i < |steps| { assert Linked(run, steps, i); }
    }
  }

  const TTL := REFRESH_TOKEN_TTL

  /** User 7 has logged in, and traded token 1 for token 2. */
  const ROTATED := State(map[1 := Token(7, true, TTL), 2 := Token(7, false, TTL)], map[1 := 0, 2 := 0], map[])

  lemma Rotates() returns (run: seq<State>, steps: seq<Step>)
    ensures IsRun(run, steps) && |steps| == 3 && run[3] == ROTATED
  {
    run, steps := [INIT], [];
    assert IsRun(run, steps);
    Extend(run, steps, DoLogin(7, 0, 1));
    run, steps := run + [Do(INIT, DoLogin(7, 0, 1), 0)], steps + [DoLogin(7, 0, 1)];
    assert run[1] == State(map[1 := Token(7, false, TTL)], map[1 := 0], map[]);
    Extend(run, steps, Present(0, 1, 0, 2));
    run, steps := run + [Do(run[1], Present(0, 1, 0, 2), 1)], steps + [Present(0, 1, 0, 2)];
    assert run[2] == State(map[1 := Token(7, false, TTL)], map[1 := 0], map[0 := Trading(1, 7, 2, TTL)]);
    Extend(run, steps, CommitTrade(0));
    run, steps := run + [Do(run[2], CommitTrade(0), 2)], steps + [CommitTrade(0)];
    assert run[3] == ROTATED;
  }

  /** Token 2 is being traded for 3 while the revocation set off by token 1, begun at step n, waits for token 2's row. */
  ghost function Waiting(n: nat): State {
    ROTATED.(txs := map[1 := Trading(2, 7, 3, TTL), 2 := Revoking(1, 7, n, {2}, {1})])
  }

  ghost function Traded(n: nat): State {
    State(map[1 := Token(7, true, TTL), 2 := Token(7, true, TTL), 3 := Token(7, false, TTL)], map[1 := 0, 2 := 0, 3 := 0],
          map[2 := Revoking(1, 7, n, {2}, {1})])
  }

  /** From there the trade commits, the revocation goes on, and token 3 stays live. */
  lemma Survives(run: seq<State>, steps: seq<Step>, n: nat) returns (longer: seq<State>, more: seq<Step>)
    requires IsRun(run, steps) && run[|steps|] == Waiting(n) && n < |steps|
    ensures IsRun(longer, more) && |more| == |steps| + 3 && run <= longer && steps <= more
    ensures RevokesAll(longer, more, n, |more| - 1, 2, 7)
    ensures var end := longer[|more|]; Live(end, 3) && end.tokens[3].user == 7 && 3 in end.login && end.login[3] == 0
  {
    var k := |steps|;
    Extend(run, steps, CommitTrade(1));
    longer, more := run + [Do(run[k], CommitTrade(1), k)], steps + [CommitTrade(1)];
    assert longer[k + 1] == Traded(n);
    Extend(longer, more, LockRow(2, 2));
    longer, more := longer + [Do(longer[k + 1], LockRow(2, 2), k + 1)], more + [LockRow(2, 2)];
    assert {2} - {2} == {} && longer[k + 2].txs[2].todo == {};
    Extend(longer, more, CommitRevoke(2));
    longer, more := longer + [Do(longer[k + 2], CommitRevoke(2), k + 2)], more + [CommitRevoke(2)];
  }

  /** A refresh open when the revocation begins: its new token is never seen. */
  lemma OpenRefreshSurvives() returns (run: seq<State>, steps: seq<Step>)
    ensures IsRun(run, steps) && |steps| == 9 && RevokesAll(run, steps, 5, 8, 2, 7)
    ensures Live(run[9], 3) && run[9].tokens[3].user == 7 && 3 in run[9].login && run[9].login[3] == 0
  {
    run, steps := Rotates();
    Extend(run, steps, Present(1, 2, 0, 3));
    run, steps := run + [Do(run[3], Present(1, 2, 0, 3), 3)], steps + [Present(1, 2, 0, 3)];
    assert run[4] == ROTATED.(txs := map[1 := Trading(2, 7, 3, TTL)]);
    Extend(run, steps, Present(2, 1, 0, 9));
    run, steps := run + [Do(run[4], Present(2, 1, 0, 9), 4)], steps + [Present(2, 1, 0, 9)];
    assert run[5] == ROTATED.(txs := map[1 := Trading(2, 7, 3, TTL), 2 := Reusing(1, 7)]);
    Extend(run, steps, StartRevoke(2));
    run, steps := run + [Do(run[5], StartRevoke(2), 5)], steps + [StartRevoke(2)];
    assert TokensOf(ROTATED.tokens, 7) - {1} == {2};
    assert run[6] == Waiting(5);
    run, steps := Survives(run, steps, 5);
  }

  /** None open when it begins: a refresh that gets to its row before the revocation does survives just as well. */
  lemma LateRefreshSurvives() returns (run: seq<State>, steps: seq<Step>)
    ensures IsRun(run, steps) && |steps| == 9 && RevokesAll(run, steps, 4, 8, 2, 7) && NoneOpen(run[4], 7)
    ensures Live(run[9], 3) && run[9].tokens[3].user == 7 && 3 in run[9].login && run[9].login[3] == 0
  {
    run, steps := Rotates();
    Extend(run, steps, Present(2, 1, 0, 9));
    run, steps := run + [Do(run[3], Present(2, 1, 0, 9), 3)], steps + [Present(2, 1, 0, 9)];
    assert run[4] == ROTATED.(txs := map[2 := Reusing(1, 7)]);
    Extend(run, steps, StartRevoke(2));
    run, steps := run + [Do(run[4], StartRevoke(2), 4)], steps + [StartRevoke(2)];
    assert TokensOf(ROTATED.tokens, 7) - {1} == {2};
    assert run[5] == ROTATED.(txs := map[2 := Revoking(1, 7, 4, {2}, {1})]);
    Extend(run, steps, Present(1, 2, 0, 3));
    run, steps := run + [Do(run[5], Present(1, 2, 0, 3), 5)], steps + [Present(1, 2, 0, 3)];
    assert run[6] == Waiting(4);
    run, steps := Survives(run, steps, 4);
  }
}
