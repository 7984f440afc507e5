/** Transactions of oauth_provider.py, the consent routes of dashboard.py, the connection
    deletions of dashboard.py and tools.py, and the bearer check of auth.py.

    One function per `async with session_scope()` block. That such a block is one atomic
    step is an assumption of the model: inside it the code issues SELECT and then
    DELETE/UPDATE. The one exception is `_get_or_create_connection`, whose SELECT and
    INSERT are two functions here, because the code itself guards that gap with a lock. */
module OAuth {
  import opened Basics
  import opened Schema
  import opened Content

  const ACCESS_TOKEN_TTL: Time := HOUR
  const REFRESH_TOKEN_TTL: Time := 180 * DAY
  const UNUSED_CLIENT_TTL: Time := 30 * DAY
  const AUTHORIZATION_CODE_TTL: Time := 10 * MINUTE

  // ---- registration and consent ----

  function RegisterClient(db: Db, k: ClientId, now: Time): Tx {
    if k in db.clients then Refuse(IntegrityError)
    else Commit(db.(clients := db.clients[k := ClientRow(now)]))
  }

  function Authorize(db: Db, k: ClientId, id: CodeId, now: Time): Tx {
    if k !in db.clients || id in db.codes then Refuse(IntegrityError)
    else Commit(db.(codes := db.codes[id := CodeRow(k, None, None, false, now + AUTHORIZATION_CODE_TTL)]))
  }

  predicate AwaitsConsent(db: Db, id: CodeId, now: Time) {
    id in db.codes && !db.codes[id].approved && db.codes[id].expiresAt > now
  }

  /** The UNIQUE constraint on `code_hash`. */
  predicate CodeHashTaken(codes: map<CodeId, CodeRow>, h: Digest) {
    exists id <- codes :: codes[id].codeHash == Some(h)
  }

  function ApproveConsent(db: Db, id: CodeId, u: UserId, code: Digest, now: Time): Tx {
    if !AwaitsConsent(db, id, now) then Refuse(NotFound)
    else if u !in db.users || CodeHashTaken(db.codes, code) then Refuse(IntegrityError)
    else Commit(db.(codes := db.codes[id :=
      db.codes[id].(codeHash := Some(code), userId := Some(u), approved := true)]))
  }

  function DenyConsent(db: Db, id: CodeId, now: Time): Tx {
    if !AwaitsConsent(db, id, now) then Refuse(NotFound)
    else Commit(db.(codes := db.codes - {id}))
  }

  // ---- authorization code exchange ----

  predicate HasCodeHash(codes: map<CodeId, CodeRow>, id: CodeId, h: Digest) {
    id in codes && codes[id].codeHash == Some(h)
  }

  /** The row with this code hash; the column is UNIQUE. */
  ghost function FindCode(db: Db, h: Digest): Option<CodeId> {
    if exists id :: HasCodeHash(db.codes, id, h) then
      var id :| HasCodeHash(db.codes, id, h); Some(id)
    else None
  }

  /** load_authorization_code: the row a presented code may be exchanged for. */
  ghost function LoadCode(db: Db, k: ClientId, h: Digest, now: Time): Option<CodeRow> {
    var found := FindCode(db, h);
    if found.None? || db.codes[found.value].clientId != k then None
    else if !db.codes[found.value].approved || db.codes[found.value].expiresAt <= now then None
    else Some(db.codes[found.value])
  }

  /** The first block of exchange_authorization_code: single use, by deletion. */
  ghost function ConsumeCode(db: Db, h: Digest): Tx {
    var found := FindCode(db, h);
    if found.None? then Refuse(InvalidGrant)
    else Commit(db.(codes := db.codes - {found.value}))
  }

  // ---- _get_or_create_connection ----

  predicate ActiveFor(conns: map<ConnId, ConnRow>, c: ConnId, u: UserId, k: ClientId) {
    && c in conns
    && conns[c].userId == u && conns[c].clientId == Some(k)
    && conns[c].revokedAt.None?
  }

  /** The outcome of `scalar_one_or_none()`. */
  datatype Lookup = NoRow | OneRow(id: ConnId) | MultipleRows

  ghost function FindActive(db: Db, u: UserId, k: ClientId): Lookup {
    if !exists c :: ActiveFor(db.conns, c, u, k) then NoRow
    else
      var c :| ActiveFor(db.conns, c, u, k);
      if exists d :: d != c && ActiveFor(db.conns, d, u, k) then MultipleRows else OneRow(c)
  }

  function InsertConnection(db: Db, c: ConnId, u: UserId, k: ClientId): Tx {
    // scalar_one() on the client, then the INSERT with its two foreign keys
    if k !in db.clients then Refuse(NotFound)
    else if u !in db.users || c in db.conns then Refuse(IntegrityError)
    else Commit(db.(conns := db.conns[c := ConnRow(u, Some(k), None, None, None)]))
  }

  // ---- tokens ----

  function IssueTokens(db: Db, c: ConnId, k: ClientId, access: Digest, refresh: Digest, now: Time): Tx {
    if c !in db.conns || k !in db.clients || access in db.access || refresh in db.refresh then Refuse(IntegrityError)
    else Commit(db.(
      access := db.access[access := AccessRow(c, now + ACCESS_TOKEN_TTL)],
      refresh := db.refresh[refresh := RefreshRow(c, k, None, now + REFRESH_TOKEN_TTL)]))
  }

  /** load_refresh_token followed by the expiry check of the SDK. A rotated-away token is
      deliberately let through: reuse is detected by the exchange. */
  predicate LoadsRefresh(db: Db, k: ClientId, h: Digest, now: Time) {
    && h in db.refresh && db.refresh[h].clientId == k
    && db.refresh[h].connectionId in db.conns
    && db.refresh[h].expiresAt > now
  }

  predicate IsRotatedAway(db: Db, h: Digest) {
    h in db.refresh && db.refresh[h].revokedAt.Some?
  }

  /** The first block of exchange_refresh_token, when the token has not been used before. */
  function RotateAway(db: Db, h: Digest, now: Time): Tx {
    if h !in db.refresh then Refuse(InvalidGrant)
    else Commit(db.(refresh := db.refresh[h := db.refresh[h].(revokedAt := Some(now))]))
  }

  /** revoke_connection: its refresh tokens marked, its access tokens deleted, itself marked. */
  function RevokeConnection(db: Db, c: ConnId, now: Time): Db {
    db.(
      refresh := map h | h in db.refresh ::
        if db.refresh[h].connectionId == c && db.refresh[h].revokedAt.None?
        then db.refresh[h].(revokedAt := Some(now)) else db.refresh[h],
      access := map h | h in db.access && db.access[h].connectionId != c :: db.access[h],
      conns := if c in db.conns then db.conns[c := db.conns[c].(revokedAt := Some(now))] else db.conns)
  }

  /** The first block of revoke_token: the connection a presented token belongs to. */
  function TokenConnection(db: Db, h: Digest): Option<ConnId> {
    if h in db.access then Some(db.access[h].connectionId)
    else if h in db.refresh then Some(db.refresh[h].connectionId)
    else None
  }

  // ---- connections ----

  /** The UNIQUE constraint on `token_hash`. */
  predicate TokenHashTaken(conns: map<ConnId, ConnRow>, h: Digest) {
    exists c <- conns :: conns[c].tokenHash == Some(h)
  }

  function CreatePersonalToken(db: Db, c: ConnId, u: UserId, h: Digest, expires: Time): Tx {
    if u !in db.users || c in db.conns || TokenHashTaken(db.conns, h) then Refuse(IntegrityError)
    else Commit(db.(conns := db.conns[c := ConnRow(u, None, Some(h), Some(expires), None)]))
  }

  predicate HasContent(db: Db, c: ConnId) {
    || (exists a <- db.artifacts :: db.artifacts[a].connectionId == c)
    || (exists m <- db.comments :: db.comments[m].author == ByConnection(c))
    || (exists s <- db.shares :: db.shares[s].sharedBy == c)
  }

  /** admin_delete_connection, and dashboard_delete_connection for the owner. */
  function DeleteConnection(db: Db, c: ConnId): Tx {
    if c !in db.conns then Refuse(NotFound)
    else if db.conns[c].revokedAt.None? then Refuse(NotRevoked)
    else if HasContent(db, c) then Refuse(HasHistory)
    else Commit(db.(
      refresh := map h | h in db.refresh && db.refresh[h].connectionId != c :: db.refresh[h],
      access := map h | h in db.access && db.access[h].connectionId != c :: db.access[h],
      conns := db.conns - {c}))
  }

  // ---- housekeeping ----

  predicate ClientInUse(db: Db, k: ClientId) {
    || (exists c <- db.conns :: db.conns[c].clientId == Some(k))
    || (exists i <- db.codes :: db.codes[i].clientId == k)
    || (exists h <- db.refresh :: db.refresh[h].clientId == k)
  }

  /** The two deletions by expiry that open sweep_expired_oauth_rows. */
  function WithoutExpired(db: Db, now: Time): Db {
    db.(
      codes := map i | i in db.codes && db.codes[i].expiresAt > now :: db.codes[i],
      refresh := map h | h in db.refresh && db.refresh[h].expiresAt > now :: db.refresh[h])
  }

  function Sweep(db: Db, now: Time): Db {
    var swept := WithoutExpired(db, now);
    swept.(clients := map k | k in db.clients
      && (db.clients[k].createdAt > now - UNUSED_CLIENT_TTL || ClientInUse(swept, k)) :: db.clients[k])
  }

  // ---- the bearer check (auth.py) ----

  predicate HasTokenHash(db: Db, c: ConnId, h: Digest) {
    c in db.conns && db.conns[c].tokenHash == Some(h)
  }

  ghost function ResolveConnection(db: Db, h: Digest, now: Time): Option<ConnId> {
    if exists c :: HasTokenHash(db, c, h) then
      var c :| HasTokenHash(db, c, h);
      if db.conns[c].revokedAt.Some? then None
      else if db.conns[c].expiresAt.Some? && db.conns[c].expiresAt.value <= now then None
      else Some(c)
    else None
  }

  function LoadAccessToken(db: Db, h: Digest, now: Time): Option<ConnId> {
    if h !in db.access || db.access[h].connectionId !in db.conns then None
    else if db.access[h].expiresAt <= now || db.conns[db.access[h].connectionId].revokedAt.Some? then None
    else Some(db.access[h].connectionId)
  }

  /** The connection a bearer token authenticates as: a personal token, else an OAuth access token. */
  ghost function Authenticate(db: Db, h: Digest, now: Time): Option<ConnId> {
    var personal := ResolveConnection(db, h, now);
    if personal.Some? then personal else LoadAccessToken(db, h, now)
  }
}
