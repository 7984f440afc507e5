/** Transactions of tools.py, versions.py, comments.py and shares.py on the content tables.

    Each function is one request's database work; it either commits a new database or is
    refused and leaves the database as it was. Foreign keys are NOT checked by the deletes
    below: that no delete ever leaves a dangling reference is proved, not assumed. */
module Content {
  import opened Basics
  import opened Schema
  import opened Totals
  import Retention
  import Utf8

  datatype Error =
    | InvalidFormat
    | QuotaExceeded
    | NotFound
    | VersionConflict
    | InvalidTarget
    | CannotDeleteCurrent
    | CommentTooLarge
    | RecipientNotFound
    | SelfShare
    | IntegrityError
    | StaleData
    | InvalidGrant
    | NotRevoked
    | HasHistory

  datatype Tx = Commit(db: Db) | Refuse(error: Error)

  function After(db: Db, tx: Tx): Db {
    if tx.Commit? then tx.db else db
  }

  /** A content request never touches users, clients, codes, connections or tokens. */
  ghost predicate SparesCredentials(db: Db, tx: Tx) {
    tx.Commit? ==>
      && tx.db.users == db.users && tx.db.clients == db.clients && tx.db.codes == db.codes
      && tx.db.conns == db.conns && tx.db.access == db.access && tx.db.refresh == db.refresh
  }

  datatype Config = Config(
    maxArtifacts: nat, maxArtifactBytes: nat, maxTotalBytes: nat, maxVersions: nat,
    maxComments: nat, maxCommentBytes: nat)

  const MAX_TITLE := 500
  const MAX_LANGUAGE := 100
  const MAX_COMMENT := 100_000

  // ---- sizes and sums (quotas.py) ----

  function OrEmpty(s: Option<string>): string {
    if s.Some? then s.value else ""
  }

  /** Every byte written for one version: content, title and language. */
  function ByteSize(content: string, title: Option<string>, language: Option<string>): nat {
    Utf8.ByteLength(content) + Utf8.ByteLength(OrEmpty(title)) + Utf8.ByteLength(OrEmpty(language))
  }

  function Owned(artifacts: map<ArtifactId, ArtifactRow>, c: ConnId): set<ArtifactId> {
    set a | a in artifacts && artifacts[a].connectionId == c
  }

  /** Sizes of the version rows of all artifacts owned by `c`. */
  function StoredRows(artifacts: map<ArtifactId, ArtifactRow>, versions: map<VersionKey, VersionRow>,
                      c: ConnId): map<VersionKey, nat> {
    map k | k in versions && k.artifact in artifacts && artifacts[k.artifact].connectionId == c :: versions[k].byteSize
  }

  ghost function StoredBytes(db: Db, c: ConnId): nat { Total(StoredRows(db.artifacts, db.versions, c)) }

  function VersionsOf(versions: map<VersionKey, VersionRow>, a: ArtifactId): set<int> {
    set k | k in versions && k.artifact == a :: k.version
  }

  function CommentSizes(comments: map<CommentId, CommentRow>, a: ArtifactId): map<CommentId, nat> {
    map m | m in comments && comments[m].artifactId == a :: |comments[m].body|
  }

  // ---- ownership lookups ----

  predicate OwnedBy(db: Db, c: ConnId, a: ArtifactId) {
    a in db.artifacts && db.artifacts[a].connectionId == c
  }

  predicate OwnedByUser(db: Db, u: UserId, a: ArtifactId) {
    && a in db.artifacts
    && db.artifacts[a].connectionId in db.conns
    && db.conns[db.artifacts[a].connectionId].userId == u
  }

  predicate Accessible(db: Db, u: UserId, a: ArtifactId) {
    && a in db.artifacts
    && (OwnedByUser(db, u, a)
        || exists s <- db.shares :: db.shares[s].artifactId == a && db.shares[s].sharedWith == u)
  }

  // ---- quota checks ----

  ghost function NewArtifactQuota(db: Db, cfg: Config, c: ConnId, size: nat): Option<Error> {
    if size > cfg.maxArtifactBytes then Some(QuotaExceeded)
    else if |Owned(db.artifacts, c)| >= cfg.maxArtifacts then Some(QuotaExceeded)
    else if StoredBytes(db, c) + size > cfg.maxTotalBytes then Some(QuotaExceeded)
    else None
  }

  ghost function UpdateQuota(db: Db, cfg: Config, c: ConnId, size: nat): Option<Error> {
    if size > cfg.maxArtifactBytes then Some(QuotaExceeded)
    else if StoredBytes(db, c) + size > cfg.maxTotalBytes then Some(QuotaExceeded)
    else None
  }

  // ---- publish ----

  function ParseFormat(s: string): Option<Format> {
    if s == "html" then Some(Html)
    else if s == "markdown" then Some(Markdown)
    else if s == "code" then Some(Code)
    else if s == "csv" then Some(Csv)
    else if s == "react" then Some(React)
    else None
  }

  predicate MetadataTooLong(title: Option<string>, language: Option<string>) {
    || (title.Some? && |title.value| > MAX_TITLE)
    || (language.Some? && |language.value| > MAX_LANGUAGE)
  }

  /** The INSERT of a new artifact and its first version, after the quota check. */
  function PublishCommit(db: Db, c: ConnId, a: ArtifactId, row: VersionRow): (tx: Tx)
    ensures SparesCredentials(db, tx)
  {
    if c !in db.conns || a in db.artifacts || VersionKey(a, 1) in db.versions then Refuse(IntegrityError)
    else Commit(db.(
      artifacts := db.artifacts[a :=
        ArtifactRow(c, row.title, row.format, row.language, row.content, 1, row.byteSize)],
      versions := db.versions[VersionKey(a, 1) := row]))
  }

  ghost function Publish(db: Db, cfg: Config, c: ConnId, a: ArtifactId, content: string, format: string,
                         title: Option<string>, language: Option<string>): (tx: Tx)
    ensures SparesCredentials(db, tx)
  {
    var parsed := ParseFormat(format);
    if parsed.None? then Refuse(InvalidFormat)
    else if |content| > cfg.maxArtifactBytes || MetadataTooLong(title, language) then Refuse(QuotaExceeded)
    else
      var size := ByteSize(content, title, language);
      var quota := NewArtifactQuota(db, cfg, c, size);
      if quota.Some? then Refuse(quota.value)
      else PublishCommit(db, c, a, VersionRow(title, parsed.value, language, content, size))
  }

  // ---- update ----

  /** The rows that survive `DELETE ... WHERE version NOT IN (the newest n)`, run only when there are more than n. */
  function Retained(versions: map<VersionKey, VersionRow>, n: nat, a: ArtifactId): map<VersionKey, VersionRow> {
    if |VersionsOf(versions, a)| > n then
      var keep := Retention.Kept(VersionsOf(versions, a), n);
      map k | k in versions && (k.artifact == a ==> k.version in keep) :: versions[k]
    else versions
  }

  /** The artifact row written over and one version row added; retention not yet applied. */
  function Appended(db: Db, a: ArtifactId, base: int, row: VersionRow): Db
    requires a in db.artifacts
  {
    db.(
      artifacts := db.artifacts[a := db.artifacts[a].(
        title := row.title, format := row.format, language := row.language, content := row.content,
        version := base + 1, byteSize := row.byteSize)],
      versions := db.versions[VersionKey(a, base + 1) := row])
  }

  /** Everything update_artifact writes: `base` is the version read under the lock. */
  function UpdateCommit(db: Db, cfg: Config, a: ArtifactId, base: int, row: VersionRow): (tx: Tx)
    ensures SparesCredentials(db, tx)
  {
    if a !in db.artifacts then Refuse(StaleData)
    else if VersionKey(a, base + 1) in db.versions then Refuse(IntegrityError)
    else
      var written := Appended(db, a, base, row);
      Commit(written.(versions := Retained(written.versions, cfg.maxVersions, a)))
  }

  /** What update_artifact will store: an omitted field keeps the artifact's current value. */
  function NewVersion(current: ArtifactRow, content: string, format: Format, title: Option<string>,
                      language: Option<string>): VersionRow {
    var t := if title.Some? then title else current.title;
    var l := if language.Some? then language else current.language;
    VersionRow(t, format, l, content, ByteSize(content, t, l))
  }

  ghost function Update(db: Db, cfg: Config, c: ConnId, a: ArtifactId, content: string, base: int,
                        format: Option<string>, title: Option<string>, language: Option<string>): (tx: Tx)
    ensures SparesCredentials(db, tx)
  {
    if |content| > cfg.maxArtifactBytes || MetadataTooLong(title, language) then Refuse(QuotaExceeded)
    else if !OwnedBy(db, c, a) then Refuse(NotFound)
    else if db.artifacts[a].version != base then Refuse(VersionConflict)
    else
      var parsed := if format.Some? then ParseFormat(format.value) else Some(db.artifacts[a].format);
      if parsed.None? then Refuse(InvalidFormat)
      else
        var row := NewVersion(db.artifacts[a], content, parsed.value, title, language);
        var quota := UpdateQuota(db, cfg, c, row.byteSize);
        if quota.Some? then Refuse(quota.value) else UpdateCommit(db, cfg, a, base, row)
  }

  // ---- history management (versions.py) ----

  function DeleteVersion(db: Db, u: UserId, a: ArtifactId, v: int): (tx: Tx)
    ensures SparesCredentials(db, tx)
  {
    if !OwnedByUser(db, u, a) then Refuse(NotFound)
    else if v == db.artifacts[a].version then Refuse(CannotDeleteCurrent)
    else if VersionKey(a, v) !in db.versions then Refuse(NotFound)
    else Commit(db.(versions := db.versions - {VersionKey(a, v)}))
  }

  /** `DELETE ... WHERE artifact_id = a AND version != keep` */
  function AllButVersion(db: Db, a: ArtifactId, keep: int): map<VersionKey, VersionRow> {
    map k | k in db.versions && (k.artifact == a ==> k.version == keep) :: db.versions[k]
  }

  function Prune(db: Db, u: UserId, a: ArtifactId): (tx: Tx)
    ensures SparesCredentials(db, tx)
  {
    if !OwnedByUser(db, u, a) then Refuse(NotFound)
    else Commit(db.(versions := AllButVersion(db, a, db.artifacts[a].version)))
  }

  // ---- artifact deletion and reassignment ----

  /** Comments, shares, cascaded versions, then the artifact itself. */
  function WithoutArtifact(db: Db, a: ArtifactId): Db {
    db.(
      comments := map m | m in db.comments && db.comments[m].artifactId != a :: db.comments[m],
      shares := map s | s in db.shares && db.shares[s].artifactId != a :: db.shares[s],
      versions := map k | k in db.versions && k.artifact != a :: db.versions[k],
      artifacts := db.artifacts - {a})
  }

  function DeleteArtifact(db: Db, u: UserId, a: ArtifactId): (tx: Tx)
    ensures SparesCredentials(db, tx)
  {
    if OwnedByUser(db, u, a) then Commit(WithoutArtifact(db, a)) else Refuse(NotFound)
  }

  function AdminDeleteArtifact(db: Db, a: ArtifactId): (tx: Tx)
    ensures SparesCredentials(db, tx)
  {
    if a in db.artifacts then Commit(WithoutArtifact(db, a)) else Refuse(NotFound)
  }

  function ReassignCommit(db: Db, a: ArtifactId, target: ConnId): (tx: Tx)
    ensures SparesCredentials(db, tx)
  {
    if a !in db.artifacts then Refuse(StaleData)
    else if target !in db.conns then Refuse(IntegrityError)
    else Commit(db.(artifacts := db.artifacts[a := db.artifacts[a].(connectionId := target)]))
  }

  predicate ValidTarget(db: Db, u: UserId, target: ConnId) {
    target in db.conns && db.conns[target].userId == u && db.conns[target].revokedAt.None?
  }

  ghost function Reassign(db: Db, cfg: Config, u: UserId, a: ArtifactId, target: ConnId): (tx: Tx)
    ensures SparesCredentials(db, tx)
  {
    if !OwnedByUser(db, u, a) then Refuse(NotFound)
    else if target == db.artifacts[a].connectionId || !ValidTarget(db, u, target) then Refuse(InvalidTarget)
    else
      var quota := NewArtifactQuota(db, cfg, target, db.artifacts[a].byteSize);
      if quota.Some? then Refuse(quota.value) else ReassignCommit(db, a, target)
  }

  // ---- comments ----

  ghost function CommentQuota(db: Db, cfg: Config, a: ArtifactId, body: string): Option<Error> {
    if |CommentSizes(db.comments, a)| >= cfg.maxComments then Some(QuotaExceeded)
    else if Total(CommentSizes(db.comments, a)) + Utf8.ByteLength(body) > cfg.maxCommentBytes then Some(QuotaExceeded)
    else None
  }

  ghost function InsertComment(db: Db, cfg: Config, id: CommentId, row: CommentRow): (tx: Tx)
    ensures SparesCredentials(db, tx)
  {
    var quota := CommentQuota(db, cfg, row.artifactId, row.body);
    if quota.Some? then Refuse(quota.value)
    else if id in db.comments then Refuse(IntegrityError)
    else Commit(db.(comments := db.comments[id := row]))
  }

  ghost function CreateComment(db: Db, cfg: Config, u: UserId, a: ArtifactId, id: CommentId, body: string,
                               now: Time): (tx: Tx)
    ensures SparesCredentials(db, tx)
  {
    if Utf8.ByteLength(body) > MAX_COMMENT then Refuse(CommentTooLarge)
    else if !Accessible(db, u, a) then Refuse(NotFound)
    else if u !in db.users then Refuse(IntegrityError)
    else InsertComment(db, cfg, id, CommentRow(a, None, ByUser(u), body, false, now))
  }

  predicate IsRoot(db: Db, m: CommentId) {
    m in db.comments && db.comments[m].parentId.None?
  }

  ghost function ReplyToComment(db: Db, cfg: Config, c: ConnId, root: CommentId, id: CommentId, body: string,
                                now: Time): (tx: Tx)
    ensures SparesCredentials(db, tx)
  {
    if Utf8.ByteLength(body) > MAX_COMMENT then Refuse(CommentTooLarge)
    else if !(IsRoot(db, root) && OwnedBy(db, c, db.comments[root].artifactId)) then Refuse(NotFound)
    else if c !in db.conns then Refuse(IntegrityError)
    else InsertComment(db, cfg, id,
      CommentRow(db.comments[root].artifactId, Some(root), ByConnection(c), body, false, now))
  }

  ghost function ReplyAsHuman(db: Db, cfg: Config, u: UserId, root: CommentId, id: CommentId, body: string,
                              now: Time): (tx: Tx)
    ensures SparesCredentials(db, tx)
  {
    if Utf8.ByteLength(body) > MAX_COMMENT then Refuse(CommentTooLarge)
    else if !(IsRoot(db, root) && Accessible(db, u, db.comments[root].artifactId)) then Refuse(NotFound)
    else if u !in db.users then Refuse(IntegrityError)
    else InsertComment(db, cfg, id,
      CommentRow(db.comments[root].artifactId, Some(root), ByUser(u), body, false, now))
  }

  function ResolveThread(db: Db, c: ConnId, root: CommentId): (tx: Tx)
    ensures SparesCredentials(db, tx)
  {
    if !(IsRoot(db, root) && OwnedBy(db, c, db.comments[root].artifactId)) then Refuse(NotFound)
    else Commit(db.(comments := db.comments[root := db.comments[root].(resolved := true)]))
  }

  function ToggleResolved(db: Db, u: UserId, root: CommentId): (tx: Tx)
    ensures SparesCredentials(db, tx)
  {
    if !(IsRoot(db, root) && Accessible(db, u, db.comments[root].artifactId)) then Refuse(NotFound)
    else Commit(db.(comments := db.comments[root := db.comments[root].(resolved := !db.comments[root].resolved)]))
  }

  /** The replies go first, then the root. */
  function DeleteThread(db: Db, u: UserId, a: ArtifactId, root: CommentId): (tx: Tx)
    ensures SparesCredentials(db, tx)
  {
    if !OwnedByUser(db, u, a) then Refuse(NotFound)
    else if !(IsRoot(db, root) && db.comments[root].artifactId == a) then Refuse(NotFound)
    else Commit(db.(comments :=
      map m | m in db.comments && db.comments[m].parentId != Some(root) && m != root :: db.comments[m]))
  }

  // ---- shares ----

  predicate SharedWith(db: Db, a: ArtifactId, u: UserId) {
    exists s <- db.shares :: db.shares[s].artifactId == a && db.shares[s].sharedWith == u
  }

  predicate HasEmail(users: map<UserId, string>, u: UserId, email: string) {
    u in users && users[u] == email
  }

  ghost function UserByEmail(users: map<UserId, string>, email: string): Option<UserId> {
    if exists u :: HasEmail(users, u, email) then
      var u :| HasEmail(users, u, email); Some(u)
    else None
  }

  /** `already_shared` commits nothing new; so does losing the race for the unique pair. */
  ghost function CreateShare(db: Db, a: ArtifactId, owner: UserId, sharer: ConnId, email: string, id: ShareId): (tx: Tx)
    ensures SparesCredentials(db, tx)
  {
    var recipient := UserByEmail(db.users, email);
    if recipient.None? then Refuse(RecipientNotFound)
    else if recipient.value == owner then Refuse(SelfShare)
    else if SharedWith(db, a, recipient.value) then Commit(db)
    else if id in db.shares then Refuse(IntegrityError)
    else Commit(db.(shares := db.shares[id := ShareRow(a, recipient.value, sharer)]))
  }

  ghost function ShareArtifact(db: Db, c: ConnId, a: ArtifactId, email: string, id: ShareId): (tx: Tx)
    ensures SparesCredentials(db, tx)
  {
    if !OwnedBy(db, c, a) then Refuse(NotFound)
    else if c !in db.conns then Refuse(IntegrityError)
    else CreateShare(db, a, db.conns[c].userId, c, email, id)
  }

  ghost function ShareFromDashboard(db: Db, u: UserId, a: ArtifactId, email: string, id: ShareId): (tx: Tx)
    ensures SparesCredentials(db, tx)
  {
    if !OwnedByUser(db, u, a) then Refuse(NotFound)
    else CreateShare(db, a, u, db.artifacts[a].connectionId, email, id)
  }

  function Unshare(db: Db, u: UserId, a: ArtifactId, id: ShareId): (tx: Tx)
    ensures SparesCredentials(db, tx)
  {
    if !OwnedByUser(db, u, a) then Refuse(NotFound)
    else if id !in db.shares || db.shares[id].artifactId != a then Refuse(NotFound)
    else Commit(db.(shares := db.shares - {id}))
  }

  // ---- one request of any kind ----

  datatype Request =
    | DoPublish(c: ConnId, a: ArtifactId, content: string, format: string, title: Option<string>,
                language: Option<string>)
    | DoUpdate(c: ConnId, a: ArtifactId, content: string, base: int, newFormat: Option<string>, title: Option<string>,
               language: Option<string>)
    | DoReassign(u: UserId, a: ArtifactId, target: ConnId)
    | DoDeleteVersion(u: UserId, a: ArtifactId, v: int)
    | DoPrune(u: UserId, a: ArtifactId)
    | DoDeleteArtifact(u: UserId, a: ArtifactId)
    | DoAdminDelete(a: ArtifactId)
    | DoComment(u: UserId, a: ArtifactId, id: CommentId, body: string, now: Time)
    | DoReply(c: ConnId, root: CommentId, id: CommentId, body: string, now: Time)
    | DoHumanReply(u: UserId, root: CommentId, id: CommentId, body: string, now: Time)
    | DoResolve(c: ConnId, root: CommentId)
    | DoToggle(u: UserId, root: CommentId)
    | DoDeleteThread(u: UserId, a: ArtifactId, root: CommentId)
    | DoShare(c: ConnId, a: ArtifactId, email: string, share: ShareId)
    | DoDashboardShare(u: UserId, a: ArtifactId, email: string, share: ShareId)
    | DoUnshare(u: UserId, a: ArtifactId, share: ShareId)

  ghost function Perform(db: Db, cfg: Config, q: Request): (tx: Tx)
    ensures SparesCredentials(db, tx)
  {
    match q
    case DoPublish(c, a, content, format, title, language) => Publish(db, cfg, c, a, content, format, title, language)
    case DoUpdate(c, a, content, base, format, title, language) =>
      Update(db, cfg, c, a, content, base, format, title, language)
    case DoReassign(u, a, target) => Reassign(db, cfg, u, a, target)
    case DoDeleteVersion(u, a, v) => DeleteVersion(db, u, a, v)
    case DoPrune(u, a) => Prune(db, u, a)
    case DoDeleteArtifact(u, a) => DeleteArtifact(db, u, a)
    case DoAdminDelete(a) => AdminDeleteArtifact(db, a)
    case DoComment(u, a, id, body, now) => CreateComment(db, cfg, u, a, id, body, now)
    case DoReply(c, root, id, body, now) => ReplyToComment(db, cfg, c, root, id, body, now)
    case DoHumanReply(u, root, id, body, now) => ReplyAsHuman(db, cfg, u, root, id, body, now)
    case DoResolve(c, root) => ResolveThread(db, c, root)
    case DoToggle(u, root) => ToggleResolved(db, u, root)
    case DoDeleteThread(u, a, root) => DeleteThread(db, u, a, root)
    case DoShare(c, a, email, id) => ShareArtifact(db, c, a, email, id)
    case DoDashboardShare(u, a, email, id) => ShareFromDashboard(db, u, a, email, id)
    case DoUnshare(u, a, id) => Unshare(db, u, a, id)
  }
}
