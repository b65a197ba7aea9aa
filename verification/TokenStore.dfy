/** Refresh-token rotation (services/auth): the refresh_tokens table and the operations that change it, one at a time. */
module TokenStore {
  import opened Domain

  /** Stands for the hash of a 256-bit random token. */
  type TokenId = nat

  datatype Token = Token(user: nat, revoked: bool, expires: int)

  datatype Answer = Issued(id: TokenId) | Invalid | Expired | ServerError

  const REFRESH_TOKEN_TTL: int := 7 * 24 * 3600 * 1000

  function Issue(tokens: map<TokenId, Token>, user: nat, now: int, id: TokenId): map<TokenId, Token> {
    tokens[id := Token(user, false, now + REFRESH_TOKEN_TTL)]
  }

  function Revoke(tokens: map<TokenId, Token>, id: TokenId): map<TokenId, Token> {
    if id in tokens then tokens[id := tokens[id].(revoked := true)] else tokens
  }

  function RevokeAll(tokens: map<TokenId, Token>, user: nat): map<TokenId, Token> {
    map t | t in tokens :: if tokens[t].user == user then tokens[t].(revoked := true) else tokens[t]
  }

  /** What one Refresh does to the table, and how it answers, when nothing fails. */
  function Refreshed(tokens: map<TokenId, Token>, id: TokenId, now: int, next: TokenId): (map<TokenId, Token>, Answer) {
    if id !in tokens then (tokens, Invalid)
    else if tokens[id].revoked then (RevokeAll(tokens, tokens[id].user), Invalid)
    else if now > tokens[id].expires then (tokens, Expired)
    else (Issue(Revoke(tokens, id), tokens[id].user, now, next), Issued(next))
  }

  class Store {
    var tokens: map<TokenId, Token>

    constructor ()
      ensures tokens == map[]
    {
      tokens := map[];
    }

    /** Login, once the password is found right. `next` is the random token; a fault is a failed or unreported insert. */
    method Login(user: nat, now: int, next: TokenId, fault: Fault) returns (r: Answer)
      requires next !in tokens
      modifies this
      ensures tokens == if fault.RolledBack? then old(tokens) else Issue(old(tokens), user, now, next)
      ensures r == if fault.Clean? then Issued(next) else ServerError
      ensures !fault.RolledBack? ==> tokens == old(tokens)[next := Token(user, false, now + 604_800_000)] // seven days
    {
      if fault.RolledBack? {
        return ServerError;
      }
      tokens := tokens[next := Token(user, false, now + REFRESH_TOKEN_TTL)];
      return if fault.Clean? then Issued(next) else ServerError;
    }

    /** Refresh. A fault is an error before the commit, or a commit whose success is not heard of. */
    method Refresh(id: TokenId, now: int, next: TokenId, fault: Fault) returns (r: Answer)
      requires next !in tokens
      modifies this
      ensures tokens == if fault.RolledBack? then old(tokens) else Refreshed(old(tokens), id, now, next).0
      ensures r == if fault.Clean? then Refreshed(old(tokens), id, now, next).1 else ServerError
      ensures fault.RolledBack? ==> tokens == old(tokens)
      ensures r == ServerError <==> !fault.Clean?
      ensures fault.Clean? ==>
        && (r == Issued(next) <==> id in old(tokens) && !old(tokens)[id].revoked && now <= old(tokens)[id].expires)
        && (r == Expired <==> id in old(tokens) && !old(tokens)[id].revoked && now > old(tokens)[id].expires)
        && (r == Invalid <==> id !in old(tokens) || old(tokens)[id].revoked)
      ensures id !in old(tokens) || (!old(tokens)[id].revoked && now > old(tokens)[id].expires) ==> tokens == old(tokens)
      ensures !fault.RolledBack? && id in old(tokens) && old(tokens)[id].revoked ==>
        && tokens.Keys == old(tokens).Keys
        && forall t :: t in tokens ==>
          tokens[t] == if old(tokens)[t].user == old(tokens)[id].user then old(tokens)[t].(revoked := true) else old(tokens)[t]
      ensures !fault.RolledBack? && id in old(tokens) && !old(tokens)[id].revoked && now <= old(tokens)[id].expires ==>
        tokens == old(tokens)[id := old(tokens)[id].(revoked := true)]
                             [next := Token(old(tokens)[id].user, false, now + 604_800_000)]
    {
      if fault.RolledBack? {
        return ServerError;
      }
      if id !in tokens {
        return if fault.Clean? then Invalid else ServerError;
      }
      var row := tokens[id];
      if row.revoked {
        RevokeEvery(row.user);
        return if fault.Clean? then Invalid else ServerError;
      }
      if now > row.expires {
        return if fault.Clean? then Expired else ServerError;
      }
      tokens := tokens[id := row.(revoked := true)];
      tokens := tokens[next := Token(row.user, false, now + REFRESH_TOKEN_TTL)];
      return if fault.Clean? then Issued(next) else ServerError;
    }

    /** UPDATE ... WHERE user_id: one row after another. */
    method RevokeEvery(user: nat)
      modifies this
      ensures tokens == RevokeAll(old(tokens), user)
      ensures tokens.Keys == old(tokens).Keys && forall t :: t in tokens ==>
        tokens[t] == if old(tokens)[t].user == user then old(tokens)[t].(revoked := true) else old(tokens)[t]
    {
      var todo: set<TokenId> := tokens.Keys;
      while todo != {}
        invariant todo <= tokens.Keys == old(tokens).Keys
        invariant forall t :: t in todo ==> tokens[t] == old(tokens)[t]
        invariant forall t :: t in tokens && t !in todo ==> tokens[t] == RevokeAll(old(tokens), user)[t]
        decreases |todo|
      {
        var t :| t in todo;
        todo := todo - {t};
        if tokens[t].user == user {
          tokens := tokens[t := tokens[t].(revoked := true)];
        }
      }
    }

    method Logout(id: TokenId, fault: Fault) returns (ok: bool)
      modifies this
      ensures tokens == if fault.RolledBack? then old(tokens) else Revoke(old(tokens), id)
      ensures ok == fault.Clean?
      ensures !fault.RolledBack? && id in old(tokens) ==> tokens == old(tokens)[id := old(tokens)[id].(revoked := true)]
      ensures fault.RolledBack? || id !in old(tokens) ==> tokens == old(tokens)
    {
      if !fault.RolledBack? && id in tokens {
        tokens := tokens[id := tokens[id].(revoked := true)];
      }
      return fault.Clean?;
    }
  }
}
