/** What a credential opens, for whom, and until when: each writer of oauth_provider.py and dashboard.py
    against the reader on the other end. */
module Lifetimes {
  import opened Basics
  import opened Schema
  import opened Content
  import opened Database
  import opened OAuth

  /** Where exactly one row has the hash, the lookup finds that row. */
  lemma FindsCode(db: Db, id: CodeId, h: Digest)
    requires UniqueCodeHashes(db.codes) && HasCodeHash(db.codes, id, h)
    ensures FindCode(db, h) == Some(id)
  {
  }

  /** From /authorize through consent to the exchange: the code loads exactly for the client that asked,
      for ten minutes from the asking, and names the user who agreed. */
  lemma CodeLifetime(db: Db, k: ClientId, id: CodeId, asked: Time, u: UserId, code: Digest, agreed: Time,
                     presenter: ClientId, at: Time)
    requires UniqueCodeHashes(db.codes) && Authorize(db, k, id, asked).Commit?
    requires ApproveConsent(Authorize(db, k, id, asked).db, id, u, code, agreed).Commit?
    ensures var after := ApproveConsent(Authorize(db, k, id, asked).db, id, u, code, agreed).db;
            && (LoadCode(after, presenter, code, at).Some? <==> presenter == k && at < asked + AUTHORIZATION_CODE_TTL)
            && (LoadCode(after, presenter, code, at).Some? ==>
                LoadCode(after, presenter, code, at).value.userId == Some(u))
  {
    var after := ApproveConsent(Authorize(db, k, id, asked).db, id, u, code, agreed).db;
    assert HasCodeHash(after.codes, id, code);
    FindsCode(after, id, code);
  }

  /** A pending request can be approved only while it is pending: the second approval finds nothing. */
  lemma ApprovedOnce(db: Db, id: CodeId, u: UserId, v: UserId, code: Digest, other: Digest, now: Time, later: Time)
    requires ApproveConsent(db, id, u, code, now).Commit?
    ensures ApproveConsent(ApproveConsent(db, id, u, code, now).db, id, v, other, later) == Refuse(NotFound)
    ensures DenyConsent(ApproveConsent(db, id, u, code, now).db, id, later) == Refuse(NotFound)
  {
  }

  /** A consumed code loads for nobody, ever, and cannot be consumed again. */
  lemma ConsumedIsGone(db: Db, h: Digest, k: ClientId, at: Time)
    requires UniqueCodeHashes(db.codes) && ConsumeCode(db, h).Commit?
    ensures LoadCode(ConsumeCode(db, h).db, k, h, at).None?
        && ConsumeCode(ConsumeCode(db, h).db, h) == Refuse(InvalidGrant)
  {
    var after := ConsumeCode(db, h).db;
    forall id ensures !HasCodeHash(after.codes, id, h) {
      if HasCodeHash(db.codes, id, h) { FindsCode(db, id, h); }
    }
  }

  /** The access token opens its connection for exactly one hour, unless the connection is revoked; the
      refresh token is accepted from exactly its client for exactly 180 days. */
  lemma TokenLifetimes(db: Db, c: ConnId, k: ClientId, access: Digest, refresh: Digest, now: Time,
                       presenter: ClientId, at: Time)
    requires IssueTokens(db, c, k, access, refresh, now).Commit?
    ensures var after := IssueTokens(db, c, k, access, refresh, now).db;
            && LoadAccessToken(after, access, at)
               == (if at < now + HOUR && db.conns[c].revokedAt.None? then Some(c) else None)
            && (LoadsRefresh(after, presenter, refresh, at) <==> presenter == k && at < now + 180 * DAY)
            && !IsRotatedAway(after, refresh)
            && TokenConnection(after, access) == Some(c)
  {
  }

  /** A personal token opens its connection exactly until it expires. */
  lemma PersonalTokenLifetime(db: Db, c: ConnId, u: UserId, h: Digest, expires: Time, at: Time)
    requires AccessRefers(db.access, db.conns)
    requires CreatePersonalToken(db, c, u, h, expires).Commit?
    ensures Authenticate(CreatePersonalToken(db, c, u, h, expires).db, h, at)
         == if at < expires then Some(c) else LoadAccessToken(db, h, at)
  {
    var after := CreatePersonalToken(db, c, u, h, expires).db;
    assert HasTokenHash(after, c, h);
  }

  // ---- the bearer check over the rows ----

  /** An unexpired personal token of a connection that is not revoked. */
  predicate OpensAsPersonal(db: Db, c: ConnId, h: Digest, at: Time) {
    && c in db.conns && db.conns[c].tokenHash == Some(h) && db.conns[c].revokedAt.None?
    && (db.conns[c].expiresAt.Some? ==> at < db.conns[c].expiresAt.value)
  }

  /** An unexpired OAuth access token of a connection that is not revoked. */
  predicate OpensAsAccess(db: Db, c: ConnId, h: Digest, at: Time) {
    && h in db.access && db.access[h].connectionId == c && at < db.access[h].expiresAt
    && c in db.conns && db.conns[c].revokedAt.None?
  }

  /** The bearer check lets in the holder of a personal token, and where the token is nobody's personal token,
      the holder of an OAuth access token; nobody else. */
  lemma BearerExactly(db: Db, h: Digest, at: Time, c: ConnId)
    requires UniqueTokenHashes(db.conns)
    ensures Authenticate(db, h, at) == Some(c) <==>
            OpensAsPersonal(db, c, h, at) || (OpensAsAccess(db, c, h, at) && forall d :: !OpensAsPersonal(db, d, h, at))
  {
    forall d: ConnId ensures ResolveConnection(db, h, at) == Some(d) <==> OpensAsPersonal(db, d, h, at) {
      if OpensAsPersonal(db, d, h, at) { assert HasTokenHash(db, d, h); }
    }
  }

  /** The access token of an OAuth client opens its connection at the gate for exactly one hour. */
  lemma AccessTokenOpensGate(db: Db, c: ConnId, k: ClientId, access: Digest, refresh: Digest, now: Time, at: Time)
    requires IssueTokens(db, c, k, access, refresh, now).Commit?
    requires forall d <- db.conns :: db.conns[d].tokenHash != Some(access)
    ensures Authenticate(IssueTokens(db, c, k, access, refresh, now).db, access, at)
         == if at < now + HOUR && db.conns[c].revokedAt.None? then Some(c) else None
  {
  }

  /** The connections of that user for that client that are not revoked. */
  function Working(db: Db, u: UserId, k: ClientId): set<ConnId> {
    set c | c in db.conns && db.conns[c].userId == u && db.conns[c].clientId == Some(k) && db.conns[c].revokedAt.None?
  }

  /** The lookup finds nothing, the one there is, or gives up over several. */
  lemma ActiveLookupExactly(db: Db, u: UserId, k: ClientId)
    ensures match FindActive(db, u, k)
            case NoRow => Working(db, u, k) == {}
            case OneRow(c) => Working(db, u, k) == {c}
            case MultipleRows => exists c, d :: c != d && c in Working(db, u, k) && d in Working(db, u, k)
  {
    assert forall c: ConnId :: c in Working(db, u, k) <==> ActiveFor(db.conns, c, u, k);
  }

  // ---- what rotation and revocation leave alone ----

  /** Rotation changes neither by whom nor until when any refresh token may be presented: a replayed one
      still reaches the exchange, which is where its reuse is noticed. */
  lemma RotationKeepsPresentable(db: Db, h: Digest, now: Time, k: ClientId, g: Digest, at: Time)
    requires RotateAway(db, h, now).Commit?
    ensures LoadsRefresh(RotateAway(db, h, now).db, k, g, at) <==> LoadsRefresh(db, k, g, at)
    ensures IsRotatedAway(RotateAway(db, h, now).db, g) <==> g == h || IsRotatedAway(db, g)
  {
  }

  /** From issue on, through rotation: the token is accepted for presentation from exactly its client for exactly
      180 days. */
  lemma RotatedTokenLifetime(db: Db, c: ConnId, k: ClientId, access: Digest, refresh: Digest, now: Time, rotated: Time,
                             presenter: ClientId, at: Time)
    requires IssueTokens(db, c, k, access, refresh, now).Commit?
    ensures var after := RotateAway(IssueTokens(db, c, k, access, refresh, now).db, refresh, rotated);
            && after.Commit? && IsRotatedAway(after.db, refresh)
            && (LoadsRefresh(after.db, presenter, refresh, at) <==> presenter == k && at < now + 180 * DAY)
  {
  }

  /** A revocation touches the rows of one connection: its own row and its refresh tokens are marked, its access
      tokens are gone, and every row of every other connection is as it was. */
  lemma RevocationExactly(db: Db, c: ConnId, now: Time)
    ensures var after := RevokeConnection(db, c, now);
            && after == db.(refresh := after.refresh, access := after.access, conns := after.conns)
            && (forall d :: d in after.conns <==> d in db.conns)
            && (forall d <- db.conns :: after.conns[d] ==
                  if d == c then db.conns[d].(revokedAt := Some(now)) else db.conns[d])
            && (forall t :: t in after.access <==> t in db.access && db.access[t].connectionId != c)
            && (forall t <- after.access :: after.access[t] == db.access[t])
            && (forall t :: t in after.refresh <==> t in db.refresh)
            && (forall t <- db.refresh :: after.refresh[t] ==
                  if db.refresh[t].connectionId == c && db.refresh[t].revokedAt.None?
                  then db.refresh[t].(revokedAt := Some(now)) else db.refresh[t])
  {
  }

  /** Nobody else is logged out by it, and nobody else is let in. */
  lemma RevocationSparesOthers(db: Db, c: ConnId, now: Time, d: ConnId, t: Digest, at: Time)
    requires d != c
    ensures var after := RevokeConnection(db, c, now);
            && (LoadAccessToken(after, t, at) == Some(d) <==> LoadAccessToken(db, t, at) == Some(d))
            && (OpensAsPersonal(after, d, t, at) <==> OpensAsPersonal(db, d, t, at))
  {
  }

  /** Nor does it hide any refresh token from the exchange. */
  lemma RevocationKeepsPresentable(db: Db, c: ConnId, now: Time, k: ClientId, t: Digest, at: Time)
    ensures LoadsRefresh(RevokeConnection(db, c, now), k, t, at) <==> LoadsRefresh(db, k, t, at)
  {
  }

  // ---- registration, consent, removal and the sweep over the rows ----

  /** A client registers exactly under a new id, and may then ask. */
  lemma RegisteredExactly(db: Db, k: ClientId, i: CodeId, now: Time)
    ensures RegisterClient(db, k, now) ==
            if k in db.clients then Refuse(IntegrityError) else Commit(db.(clients := db.clients[k := ClientRow(now)]))
    ensures Authorize(db, k, i, now).Commit? <==> k in db.clients && i !in db.codes
  {
  }

  /** A personal token is made exactly for an account, with a new id and a hash nobody has. */
  lemma PersonalTokenExactly(db: Db, c: ConnId, u: UserId, h: Digest, expires: Time)
    ensures CreatePersonalToken(db, c, u, h, expires).Commit? <==>
            u in db.users && c !in db.conns && forall d <- db.conns :: db.conns[d].tokenHash != Some(h)
    ensures CreatePersonalToken(db, c, u, h, expires).Commit? ==>
            CreatePersonalToken(db, c, u, h, expires).db
            == db.(conns := db.conns[c := ConnRow(u, None, Some(h), Some(expires), None)])
  {
  }

  /** A request can be answered exactly while it is pending and has not expired, and only an account can agree. */
  lemma AnsweredExactly(db: Db, i: CodeId, u: UserId, h: Digest, now: Time)
    ensures DenyConsent(db, i, now).Commit? <==>
            i in db.codes && !db.codes[i].approved && now < db.codes[i].expiresAt
    ensures DenyConsent(db, i, now).Commit? ==>
            && (forall j :: j in DenyConsent(db, i, now).db.codes <==> j in db.codes && j != i)
            && (forall j <- DenyConsent(db, i, now).db.codes :: DenyConsent(db, i, now).db.codes[j] == db.codes[j])
    ensures ApproveConsent(db, i, u, h, now).Commit? <==>
            && i in db.codes && !db.codes[i].approved && now < db.codes[i].expiresAt && u in db.users
            && forall j <- db.codes :: db.codes[j].codeHash != Some(h)
    ensures !(i in db.codes && !db.codes[i].approved && now < db.codes[i].expiresAt) ==>
            ApproveConsent(db, i, u, h, now) == Refuse(NotFound)
  {
  }

  /** A connection is removed exactly when it is revoked and no artifact, comment or share names it; it goes with its
      tokens, and every other row stays as it was. */
  lemma RemovalExactly(db: Db, c: ConnId)
    ensures DeleteConnection(db, c).Commit? <==>
            && c in db.conns && db.conns[c].revokedAt.Some?
            && (forall a <- db.artifacts :: db.artifacts[a].connectionId != c)
            && (forall m <- db.comments :: db.comments[m].author != ByConnection(c))
            && (forall s <- db.shares :: db.shares[s].sharedBy != c)
    ensures DeleteConnection(db, c).Commit? ==>
            var after := DeleteConnection(db, c).db;
            && after == db.(conns := after.conns, access := after.access, refresh := after.refresh)
            && (forall d :: d in after.conns <==> d in db.conns && d != c)
            && (forall d <- after.conns :: after.conns[d] == db.conns[d])
            && (forall t :: t in after.access <==> t in db.access && db.access[t].connectionId != c)
            && (forall t <- after.access :: after.access[t] == db.access[t])
            && (forall t :: t in after.refresh <==> t in db.refresh && db.refresh[t].connectionId != c)
            && (forall t <- after.refresh :: after.refresh[t] == db.refresh[t])
    ensures c in db.conns && db.conns[c].revokedAt.None? ==> DeleteConnection(db, c) == Refuse(NotRevoked)
  {
  }

  /** The sweep takes exactly the expired requests and refresh tokens, and then the clients that are thirty days old and
      named by nothing that is left; access tokens, connections and accounts stay. */
  lemma SweepExactly(db: Db, now: Time)
    ensures var after := Sweep(db, now);
            && after == db.(codes := after.codes, refresh := after.refresh, clients := after.clients)
            && (forall i :: i in after.codes <==> i in db.codes && now < db.codes[i].expiresAt)
            && (forall i <- after.codes :: after.codes[i] == db.codes[i])
            && (forall t :: t in after.refresh <==> t in db.refresh && now < db.refresh[t].expiresAt)
            && (forall t <- after.refresh :: after.refresh[t] == db.refresh[t])
            && (forall k :: k in after.clients <==>
                  k in db.clients && (now < db.clients[k].createdAt + 30 * DAY || Names(after, k)))
            && (forall k <- after.clients :: after.clients[k] == db.clients[k])
  {
    var after := Sweep(db, now);
    forall k ensures ClientInUse(WithoutExpired(db, now), k) <==> Names(after, k) {}
  }

  /** A connection, an authorization request or a refresh token names the client. */
  predicate Names(db: Db, k: ClientId) {
    || (exists c <- db.conns :: db.conns[c].clientId == Some(k))
    || (exists i <- db.codes :: db.codes[i].clientId == k)
    || (exists t <- db.refresh :: db.refresh[t].clientId == k)
  }
}
