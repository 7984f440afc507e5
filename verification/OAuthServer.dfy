/** oauth_provider.py, the consent routes of dashboard.py and the bearer check of auth.py, statement
    by statement, against the transactions of OAuth. */
module OAuthServer {
  import opened Basics
  import opened Schema
  import opened Content
  import opened Database
  import opened OAuth
  import Lifetimes

  // ---- lookups by UNIQUE column ----

  /** `SELECT ... WHERE code_hash = ...` and `scalar_one_or_none()`. */
  method SelectCode(store: Store, h: Digest) returns (found: Option<CodeId>)
    requires store.Valid()
    ensures found == FindCode(store.Rows(), h)
  {
    if exists id <- store.codes :: store.codes[id].codeHash == Some(h) {
      var id :| id in store.codes && store.codes[id].codeHash == Some(h);
      assert HasCodeHash(store.codes, id, h);
      return Some(id);
    }
    return None;
  }

  /** The lookup of resolve_connection and its checks. */
  method SelectPersonalToken(store: Store, h: Digest, now: Time) returns (found: Option<ConnId>)
    requires store.Valid()
    ensures found == ResolveConnection(store.Rows(), h, now)
  {
    if !exists c <- store.conns :: store.conns[c].tokenHash == Some(h) { return None; }
    var c :| c in store.conns && store.conns[c].tokenHash == Some(h);
    assert HasTokenHash(store.Rows(), c, h);
    if store.conns[c].revokedAt.Some? { return None; }
    if store.conns[c].expiresAt.Some? && store.conns[c].expiresAt.value <= now { return None; }
    return Some(c);
  }

  // ---- registration and consent ----

  /** register_client */
  method Register(store: Store, k: ClientId, now: Time) returns (error: Option<Error>)
    requires store.Valid()
    modifies store
    ensures store.Valid() && Ran(old(store.Rows()), store.Rows(), RegisterClient(old(store.Rows()), k, now), error)
  {
    if k in store.clients { return Some(IntegrityError); }
    store.clients := store.clients[k := ClientRow(now)];
    return None;
  }

  /** authorize */
  method OpenRequest(store: Store, k: ClientId, id: CodeId, now: Time) returns (error: Option<Error>)
    requires store.Valid()
    modifies store
    ensures store.Valid() && Ran(old(store.Rows()), store.Rows(), Authorize(old(store.Rows()), k, id, now), error)
  {
    if k !in store.clients || id in store.codes { return Some(IntegrityError); }
    store.codes := store.codes[id := CodeRow(k, None, None, false, now + AUTHORIZATION_CODE_TTL)];
    return None;
  }

  /** oauth_consent_submit, when the answer is to approve */
  method Approve(store: Store, id: CodeId, u: UserId, code: Digest, now: Time) returns (error: Option<Error>)
    requires store.Valid()
    modifies store
    ensures store.Valid()
        && Ran(old(store.Rows()), store.Rows(), ApproveConsent(old(store.Rows()), id, u, code, now), error)
  {
    if id !in store.codes { return Some(NotFound); }
    var row := store.codes[id];
    if row.approved || row.expiresAt <= now { return Some(NotFound); }
    if u !in store.users || CodeHashTaken(store.codes, code) { return Some(IntegrityError); }
    row := row.(codeHash := Some(code));
    row := row.(userId := Some(u));
    row := row.(approved := true);
    store.codes := store.codes[id := row];
    return None;
  }

  /** oauth_consent_submit, when it is anything else */
  method Deny(store: Store, id: CodeId, now: Time) returns (error: Option<Error>)
    requires store.Valid()
    modifies store
    ensures store.Valid() && Ran(old(store.Rows()), store.Rows(), DenyConsent(old(store.Rows()), id, now), error)
  {
    if id !in store.codes { return Some(NotFound); }
    if store.codes[id].approved || store.codes[id].expiresAt <= now { return Some(NotFound); }
    store.codes := store.codes - {id};
    return None;
  }

  // ---- authorization code exchange ----

  /** load_authorization_code */
  method LoadAuthorizationCode(store: Store, k: ClientId, h: Digest, now: Time) returns (code: Option<CodeRow>)
    requires store.Valid()
    ensures code == LoadCode(store.Rows(), k, h, now)
  {
    var found := SelectCode(store, h);
    if found.None? || store.codes[found.value].clientId != k { return None; }
    var row := store.codes[found.value];
    if !row.approved || row.expiresAt <= now { return None; }
    return Some(row);
  }

  /** The first block of exchange_authorization_code. */
  method Consume(store: Store, h: Digest) returns (error: Option<Error>)
    requires store.Valid()
    modifies store`codes
    ensures store.Valid() && Ran(old(store.Rows()), store.Rows(), ConsumeCode(old(store.Rows()), h), error)
  {
    var found := SelectCode(store, h);
    if found.None? { return Some(InvalidGrant); }
    store.codes := store.codes - {found.value};
    return None;
  }

  lemma FindsNone(db: Db, u: UserId, k: ClientId)
    requires forall c :: !ActiveFor(db.conns, c, u, k)
    ensures FindActive(db, u, k) == NoRow
  {
  }

  lemma FindsOne(db: Db, c: ConnId, u: UserId, k: ClientId)
    requires ActiveFor(db.conns, c, u, k) && forall d | ActiveFor(db.conns, d, u, k) :: d == c
    ensures FindActive(db, u, k) == OneRow(c)
  {
  }

  lemma FindsMany(db: Db, c: ConnId, d: ConnId, u: UserId, k: ClientId)
    requires c != d && ActiveFor(db.conns, c, u, k) && ActiveFor(db.conns, d, u, k)
    ensures FindActive(db, u, k) == MultipleRows
  {
    forall e | ActiveFor(db.conns, e, u, k) ensures exists f :: f != e && ActiveFor(db.conns, f, u, k) {
      assert if e == c then d != e && ActiveFor(db.conns, d, u, k) else c != e && ActiveFor(db.conns, c, u, k);
    }
  }

  /** The SELECT of _get_or_create_connection. */
  method SelectActive(store: Store, u: UserId, k: ClientId) returns (found: Lookup)
    ensures found == FindActive(store.Rows(), u, k)
  {
    var rows := set c | c in store.conns && ActiveFor(store.conns, c, u, k);
    assert forall c :: c in rows <==> ActiveFor(store.conns, c, u, k);
    if rows == {} {
      FindsNone(store.Rows(), u, k);
      return NoRow;
    }
    var c :| c in rows;
    if rows - {c} == {} {
      forall d | d in rows ensures d == c { assert d !in rows - {c}; }
      FindsOne(store.Rows(), c, u, k);
      return OneRow(c);
    }
    var d :| d in rows - {c};
    FindsMany(store.Rows(), c, d, u, k);
    return MultipleRows;
  }

  /** _get_or_create_connection, run under its lock, with `drawn` the new primary key. */
  method GetOrCreateConnection(store: Store, u: UserId, k: ClientId, drawn: ConnId)
    returns (error: Option<Error>, c: ConnId)
    requires store.Valid()
    modifies store`conns
    ensures store.Valid()
    ensures match FindActive(old(store.Rows()), u, k)
            case NoRow => Ran(old(store.Rows()), store.Rows(), InsertConnection(old(store.Rows()), drawn, u, k), error)
                          && c == drawn
            case OneRow(d) => store.Rows() == old(store.Rows()) && error.None? && c == d
            case MultipleRows => store.Rows() == old(store.Rows()) && error.Some?
    ensures error.None? ==> ActiveFor(store.conns, c, u, k)
  {
    var found := SelectActive(store, u, k);
    match found {
      case OneRow(d) => return None, d;
      case MultipleRows => return Some(IntegrityError), drawn;
      case NoRow =>
    }
    if k !in store.clients { return Some(NotFound), drawn; }
    if u !in store.users || drawn in store.conns { return Some(IntegrityError), drawn; }
    store.conns := store.conns[drawn := ConnRow(u, Some(k), None, None, None)];
    return None, drawn;
  }

  /** _issue_tokens */
  method Issue(store: Store, c: ConnId, k: ClientId, access: Digest, refresh: Digest, now: Time)
      returns (error: Option<Error>)
    requires store.Valid()
    modifies store`access, store`refresh
    ensures store.Valid()
    ensures Ran(old(store.Rows()), store.Rows(), IssueTokens(old(store.Rows()), c, k, access, refresh, now), error)
  {
    if c !in store.conns || access in store.access { return Some(IntegrityError); }
    if k !in store.clients || refresh in store.refresh { return Some(IntegrityError); }
    store.access := store.access[access := AccessRow(c, now + ACCESS_TOKEN_TTL)];
    store.refresh := store.refresh[refresh := RefreshRow(c, k, None, now + REFRESH_TOKEN_TTL)];
    return None;
  }

  /** exchange_authorization_code, undisturbed: it succeeds only by using the code up, and then the access
      token it returns authenticates as an active connection of that user for that client. */
  method ExchangeAuthorizationCode(store: Store, h: Digest, subject: Option<UserId>, k: ClientId,
                                   drawn: ConnId, access: Digest, refresh: Digest, now: Time)
    returns (error: Option<Error>)
    requires store.Valid()
    modifies store`codes, store`conns, store`access, store`refresh
    ensures store.Valid()
    ensures error.None? ==>
              && subject.Some? && old(FindCode(store.Rows(), h)).Some? && FindCode(store.Rows(), h).None?
              && LoadAccessToken(store.Rows(), access, now).Some?
              && ActiveFor(store.conns, LoadAccessToken(store.Rows(), access, now).value, subject.value, k)
    ensures old(FindCode(store.Rows(), h)).None? ==> error.Some? && store.Rows() == old(store.Rows())
  {
    if subject.None? { return Some(InvalidGrant); }
    error := Consume(store, h);
    if error.Some? { return; }
    assert forall id :: !HasCodeHash(store.codes, id, h);
    var c: ConnId;
    error, c := GetOrCreateConnection(store, subject.value, k, drawn);
    if error.Some? { return; }
    error := Issue(store, c, k, access, refresh, now);
  }

  // ---- refresh and revocation ----

  /** revoke_connection */
  method Revoke(store: Store, c: ConnId, now: Time)
    requires store.Valid()
    modifies store
    ensures store.Valid() && store.Rows() == RevokeConnection(old(store.Rows()), c, now)
  {
    store.refresh := map h | h in store.refresh ::
      if store.refresh[h].connectionId == c && store.refresh[h].revokedAt.None?
      then store.refresh[h].(revokedAt := Some(now)) else store.refresh[h];
    store.access := map h | h in store.access && store.access[h].connectionId != c :: store.access[h];
    if c in store.conns {
      store.conns := store.conns[c := store.conns[c].(revokedAt := Some(now))];
    }
  }

  /** exchange_refresh_token, undisturbed: an unknown token is refused, a token used before revokes its
      connection, a token not used before is marked and replaced. */
  method ExchangeRefreshToken(store: Store, h: Digest, access: Digest, refresh: Digest, now: Time)
      returns (error: Option<Error>)
    requires store.Valid()
    modifies store
    ensures store.Valid()
    ensures var was := old(store.Rows());
            if h !in was.refresh then error == Some(InvalidGrant) && store.Rows() == was
            else if IsRotatedAway(was, h) then
              error == Some(InvalidGrant) && store.Rows() == RevokeConnection(was, was.refresh[h].connectionId, now)
            else
              var marked := Content.After(was, RotateAway(was, h, now));
              Ran(marked, store.Rows(),
                  IssueTokens(marked, was.refresh[h].connectionId, was.refresh[h].clientId, access, refresh, now),
                  error)
  {
    if h !in store.refresh { return Some(InvalidGrant); }
    var row := store.refresh[h];
    if row.revokedAt.Some? {
      Revoke(store, row.connectionId, now);
      return Some(InvalidGrant);
    }
    store.refresh := store.refresh[h := row.(revokedAt := Some(now))];
    error := Issue(store, row.connectionId, row.clientId, access, refresh, now);
  }

  /** revoke_token: either kind of token revokes its whole connection; an unknown one changes nothing. */
  method RevokeToken(store: Store, h: Digest, now: Time)
    requires store.Valid()
    modifies store
    ensures store.Valid()
    ensures var was := old(store.Rows());
            store.Rows() ==
              if TokenConnection(was, h).Some? then RevokeConnection(was, TokenConnection(was, h).value, now) else was
    ensures var conn := old(TokenConnection(store.Rows(), h));
            conn.Some? ==>
              && (forall t, at :: LoadAccessToken(store.Rows(), t, at) != conn)
              && (forall t <- store.refresh :: store.refresh[t].connectionId == conn.value ==>
                    IsRotatedAway(store.Rows(), t))
    ensures var was := old(store.Rows());
            forall d: ConnId, t, at | Some(d) != TokenConnection(was, h) ::
              LoadAccessToken(store.Rows(), t, at) == Some(d) <==> LoadAccessToken(was, t, at) == Some(d)
    ensures var was := old(store.Rows());
            && (forall d <- was.conns :: Some(d) != TokenConnection(was, h) ==>
                  d in store.conns && store.conns[d] == was.conns[d])
            && (forall t <- was.refresh :: Some(was.refresh[t].connectionId) != TokenConnection(was, h) ==>
                  t in store.refresh && store.refresh[t] == was.refresh[t])
  {
    ghost var conn := TokenConnection(store.Rows(), h);
    if conn.Some? {
      Lifetimes.RevocationExactly(store.Rows(), conn.value, now);
      forall d: ConnId, t, at | d != conn.value
        ensures LoadAccessToken(RevokeConnection(store.Rows(), conn.value, now), t, at) == Some(d) <==>
                LoadAccessToken(store.Rows(), t, at) == Some(d)
      {
        Lifetimes.RevocationSparesOthers(store.Rows(), conn.value, now, d, t, at);
      }
    }
    if h in store.access {
      Revoke(store, store.access[h].connectionId, now);
    } else if h in store.refresh {
      Revoke(store, store.refresh[h].connectionId, now);
    }
  }

  // ---- connections ----

  /** dashboard_revoke_connection: for the connection's own user; to anybody else it is not there. */
  method RevokeOwn(store: Store, u: UserId, c: ConnId, now: Time) returns (error: Option<Error>)
    requires store.Valid()
    modifies store
    ensures store.Valid()
    ensures if c in old(store.conns) && old(store.conns)[c].userId == u
            then error.None? && store.Rows() == RevokeConnection(old(store.Rows()), c, now)
            else error == Some(NotFound) && store.Rows() == old(store.Rows())
  {
    if c !in store.conns || store.conns[c].userId != u { return Some(NotFound); }
    Revoke(store, c, now);
    return None;
  }

  /** dashboard_delete_connection: the same for removal. */
  method RemoveOwn(store: Store, u: UserId, c: ConnId) returns (error: Option<Error>)
    requires store.Valid()
    modifies store
    ensures store.Valid()
    ensures if c in old(store.conns) && old(store.conns)[c].userId == u
            then Ran(old(store.Rows()), store.Rows(), DeleteConnection(old(store.Rows()), c), error)
            else error == Some(NotFound) && store.Rows() == old(store.Rows())
  {
    if c !in store.conns || store.conns[c].userId != u { return Some(NotFound); }
    error := RemoveConnection(store, c);
  }

  /** The form that creates a personal token. */
  method CreateToken(store: Store, c: ConnId, u: UserId, h: Digest, expires: Time) returns (error: Option<Error>)
    requires store.Valid()
    modifies store`conns
    ensures store.Valid()
    ensures Ran(old(store.Rows()), store.Rows(), CreatePersonalToken(old(store.Rows()), c, u, h, expires), error)
  {
    if u !in store.users || c in store.conns || TokenHashTaken(store.conns, h) { return Some(IntegrityError); }
    store.conns := store.conns[c := ConnRow(u, None, Some(h), Some(expires), None)];
    return None;
  }

  /** admin_delete_connection, and dashboard_delete_connection once ownership is settled. */
  method RemoveConnection(store: Store, c: ConnId) returns (error: Option<Error>)
    requires store.Valid()
    modifies store
    ensures store.Valid() && Ran(old(store.Rows()), store.Rows(), DeleteConnection(old(store.Rows()), c), error)
  {
    if c !in store.conns { return Some(NotFound); }
    if store.conns[c].revokedAt.None? { return Some(NotRevoked); }
    var artifactCount := |set a | a in store.artifacts && store.artifacts[a].connectionId == c|;
    var commentCount := |set m | m in store.comments && store.comments[m].author == ByConnection(c)|;
    var shareCount := |set s | s in store.shares && store.shares[s].sharedBy == c|;
    CountsDecide(store.Rows(), c);
    if artifactCount > 0 || commentCount > 0 || shareCount > 0 { return Some(HasHistory); }
    store.refresh := map h | h in store.refresh && store.refresh[h].connectionId != c :: store.refresh[h];
    store.access := map h | h in store.access && store.access[h].connectionId != c :: store.access[h];
    store.conns := store.conns - {c};
    return None;
  }

  lemma CountsDecide(db: Db, c: ConnId)
    ensures HasContent(db, c) <==>
            || |set a | a in db.artifacts && db.artifacts[a].connectionId == c| > 0
            || |set m | m in db.comments && db.comments[m].author == ByConnection(c)| > 0
            || |set s | s in db.shares && db.shares[s].sharedBy == c| > 0
  {
    var artifacts := set a | a in db.artifacts && db.artifacts[a].connectionId == c;
    var comments := set m | m in db.comments && db.comments[m].author == ByConnection(c);
    var shares := set s | s in db.shares && db.shares[s].sharedBy == c;
    assert artifacts != {} <==> exists a <- db.artifacts :: db.artifacts[a].connectionId == c by {
      if a :| a in db.artifacts && db.artifacts[a].connectionId == c { assert a in artifacts; }
    }
    assert comments != {} <==> exists m <- db.comments :: db.comments[m].author == ByConnection(c) by {
      if m :| m in db.comments && db.comments[m].author == ByConnection(c) { assert m in comments; }
    }
    assert shares != {} <==> exists s <- db.shares :: db.shares[s].sharedBy == c by {
      if s :| s in db.shares && db.shares[s].sharedBy == c { assert s in shares; }
    }
  }

  // ---- housekeeping and the bearer check ----

  /** sweep_expired_oauth_rows */
  method SweepExpiredRows(store: Store, now: Time)
    requires store.Valid()
    modifies store
    ensures store.Valid() && store.Rows() == Sweep(old(store.Rows()), now)
  {
    store.codes := map i | i in store.codes && store.codes[i].expiresAt > now :: store.codes[i];
    store.refresh := map h | h in store.refresh && store.refresh[h].expiresAt > now :: store.refresh[h];
    DeleteUnusedClients(store, now);
  }

  /** The last DELETE of the sweep, with its three NOT IN subqueries. */
  method DeleteUnusedClients(store: Store, now: Time)
    modifies store`clients
    ensures store.clients == map k | k in old(store.clients)
      && (old(store.clients)[k].createdAt > now - UNUSED_CLIENT_TTL || ClientInUse(old(store.Rows()), k)) ::
          old(store.clients)[k]
  {
    var used := set c | c in store.conns && store.conns[c].clientId.Some? :: store.conns[c].clientId.value;
    var pending := set i | i in store.codes :: store.codes[i].clientId;
    var refreshing := set h | h in store.refresh :: store.refresh[h].clientId;
    InUseBySubqueries(store.Rows(), used, pending, refreshing);
    store.clients := map k | k in store.clients
      && (store.clients[k].createdAt > now - UNUSED_CLIENT_TTL || k in used || k in pending || k in refreshing)
      :: store.clients[k];
  }

  /** A client in none of the three subqueries is one nothing refers to, and conversely. */
  lemma InUseBySubqueries(db: Db, used: set<ClientId>, pending: set<ClientId>, refreshing: set<ClientId>)
    requires used == set c | c in db.conns && db.conns[c].clientId.Some? :: db.conns[c].clientId.value
    requires pending == set i | i in db.codes :: db.codes[i].clientId
    requires refreshing == set h | h in db.refresh :: db.refresh[h].clientId
    ensures forall k :: k in used || k in pending || k in refreshing <==> ClientInUse(db, k)
  {
    forall k ensures k in used || k in pending || k in refreshing <==> ClientInUse(db, k) {
      if c :| c in db.conns && db.conns[c].clientId == Some(k) { assert db.conns[c].clientId.value in used; }
    }
  }

  /** MCPAuthMiddleware: a personal token first, else an OAuth access token. Who is let in, and
      who is not, is told by the rows. */
  method AuthenticateBearer(store: Store, h: Digest, now: Time) returns (c: Option<ConnId>)
    requires store.Valid()
    ensures c == Authenticate(store.Rows(), h, now)
    ensures forall d: ConnId :: c == Some(d) <==>
              || Lifetimes.OpensAsPersonal(store.Rows(), d, h, now)
              || (Lifetimes.OpensAsAccess(store.Rows(), d, h, now)
                  && forall e: ConnId :: !Lifetimes.OpensAsPersonal(store.Rows(), e, h, now))
  {
    forall d: ConnId ensures Authenticate(store.Rows(), h, now) == Some(d) <==>
      || Lifetimes.OpensAsPersonal(store.Rows(), d, h, now)
      || (Lifetimes.OpensAsAccess(store.Rows(), d, h, now)
          && forall e: ConnId :: !Lifetimes.OpensAsPersonal(store.Rows(), e, h, now))
    {
      Lifetimes.BearerExactly(store.Rows(), h, now, d);
    }
    c := SelectPersonalToken(store, h, now);
    if c.Some? { return; }
    if h !in store.access { return None; }
    var row := store.access[h];
    if row.connectionId !in store.conns { return None; }
    if row.expiresAt <= now || store.conns[row.connectionId].revokedAt.Some? { return None; }
    return Some(row.connectionId);
  }
}
