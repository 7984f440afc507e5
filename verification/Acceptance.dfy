/** Whom each content request serves, and what exactly it writes: told by the columns a person can look at, not by
    the checks of the code (tools.py, versions.py, comments.py, shares.py, dashboard.py). */
module Acceptance {
  import opened Basics
  import opened Schema
  import opened Content
  import opened Totals
  import Utf8

  // ---- who is who ----

  /** The artifact belongs to this person: its connection is one of theirs. */
  predicate Theirs(db: Db, u: UserId, a: ArtifactId) {
    exists c <- db.conns :: db.conns[c].userId == u && a in db.artifacts && db.artifacts[a].connectionId == c
  }

  /** They own it or somebody has shared it with them. */
  predicate Reaches(db: Db, u: UserId, a: ArtifactId) {
    || Theirs(db, u, a)
    || (a in db.artifacts && exists s <- db.shares :: db.shares[s].(sharedBy := 0) == ShareRow(a, u, 0))
  }

  lemma ReachesExactly(db: Db, u: UserId, a: ArtifactId)
    ensures OwnedByUser(db, u, a) <==> Theirs(db, u, a)
    ensures Accessible(db, u, a) <==> Reaches(db, u, a)
  {
    if s :| s in db.shares && db.shares[s].artifactId == a && db.shares[s].sharedWith == u {
      assert db.shares[s].(sharedBy := 0) == ShareRow(a, u, 0);
    }
  }

  // ---- requests of the owner ----

  /** The requests of the dashboard that change an artifact, its history, its threads or its shares are for its owner
      alone: to anybody else the artifact is not there. */
  lemma StrangersFindNothing(db: Db, cfg: Config, u: UserId, a: ArtifactId, v: int, target: ConnId, root: CommentId,
                             email: string, id: ShareId)
    requires !Theirs(db, u, a)
    ensures DeleteArtifact(db, u, a) == Refuse(NotFound) && Prune(db, u, a) == Refuse(NotFound)
        && DeleteVersion(db, u, a, v) == Refuse(NotFound) && Reassign(db, cfg, u, a, target) == Refuse(NotFound)
        && DeleteThread(db, u, a, root) == Refuse(NotFound)
        && ShareFromDashboard(db, u, a, email, id) == Refuse(NotFound) && Unshare(db, u, a, id) == Refuse(NotFound)
  {
    ReachesExactly(db, u, a);
  }

  /** Nor can anybody without access comment, answer or resolve. */
  lemma OutsidersFindNothing(db: Db, cfg: Config, u: UserId, a: ArtifactId, root: CommentId, id: CommentId,
                             body: string, now: Time)
    requires !Reaches(db, u, a) && Utf8.ByteLength(body) <= MAX_COMMENT
    ensures CreateComment(db, cfg, u, a, id, body, now) == Refuse(NotFound)
    ensures root in db.comments && db.comments[root].artifactId == a ==>
              ReplyAsHuman(db, cfg, u, root, id, body, now) == Refuse(NotFound)
              && ToggleResolved(db, u, root) == Refuse(NotFound)
  {
    ReachesExactly(db, u, a);
  }

  /** And a connection reaches only its own artifacts. */
  lemma OtherConnectionsFindNothing(db: Db, cfg: Config, c: ConnId, a: ArtifactId, content: string, base: int,
                                    format: Option<string>, title: Option<string>, language: Option<string>,
                                    root: CommentId, id: CommentId, body: string, now: Time, email: string,
                                    share: ShareId)
    requires a in db.artifacts ==> db.artifacts[a].connectionId != c
    ensures !Update(db, cfg, c, a, content, base, format, title, language).Commit?
    ensures |content| <= cfg.maxArtifactBytes && !MetadataTooLong(title, language) ==>
              Update(db, cfg, c, a, content, base, format, title, language) == Refuse(NotFound)
    ensures ShareArtifact(db, c, a, email, share) == Refuse(NotFound)
    ensures root in db.comments && db.comments[root].artifactId == a ==>
              ResolveThread(db, c, root) == Refuse(NotFound)
              && !ReplyToComment(db, cfg, c, root, id, body, now).Commit?
  {
  }

  // ---- deletion ----

  /** Of artifact `a` nothing is left, and every row of every other artifact is there exactly when it was, as it was. */
  ghost predicate Vanished(before: Db, after: Db, a: ArtifactId) {
    && after == before.(artifacts := after.artifacts, versions := after.versions, comments := after.comments,
                        shares := after.shares)
    && (forall b :: b in after.artifacts <==> b in before.artifacts && b != a)
    && (forall b <- after.artifacts :: after.artifacts[b] == before.artifacts[b])
    && (forall k :: k in after.versions <==> k in before.versions && k.artifact != a)
    && (forall k <- after.versions :: after.versions[k] == before.versions[k])
    && (forall m :: m in after.comments <==> m in before.comments && before.comments[m].artifactId != a)
    && (forall m <- after.comments :: after.comments[m] == before.comments[m])
    && (forall s :: s in after.shares <==> s in before.shares && before.shares[s].artifactId != a)
    && (forall s <- after.shares :: after.shares[s] == before.shares[s])
  }

  lemma NothingIsLeft(db: Db, a: ArtifactId)
    ensures Vanished(db, WithoutArtifact(db, a), a)
  {
  }

  /** The owner's deletion takes the artifact with everything that refers to it and nothing else; it cannot be
      done twice. */
  lemma DeletionExactly(db: Db, u: UserId, a: ArtifactId)
    ensures DeleteArtifact(db, u, a).Commit? <==> Theirs(db, u, a)
    ensures DeleteArtifact(db, u, a).Commit? ==>
              && Vanished(db, DeleteArtifact(db, u, a).db, a)
              && DeleteArtifact(DeleteArtifact(db, u, a).db, u, a) == Refuse(NotFound)
  {
    ReachesExactly(db, u, a);
    NothingIsLeft(db, a);
  }

  /** So does the administrator's, of any artifact there is. */
  lemma AdminDeletionExactly(db: Db, a: ArtifactId)
    ensures AdminDeleteArtifact(db, a).Commit? <==> a in db.artifacts
    ensures AdminDeleteArtifact(db, a).Commit? ==>
              && Vanished(db, AdminDeleteArtifact(db, a).db, a)
              && AdminDeleteArtifact(AdminDeleteArtifact(db, a).db, a) == Refuse(NotFound)
  {
    NothingIsLeft(db, a);
  }

  // ---- publishing and updating ----

  function FormatNamed(name: string): Option<Format> {
    var names := map["html" := Html, "markdown" := Markdown, "code" := Code, "csv" := Csv, "react" := React];
    if name in names then Some(names[name]) else None
  }

  lemma FormatsByName(name: string)
    ensures ParseFormat(name) == FormatNamed(name)
  {
  }

  predicate AtMostChars(text: Option<string>, n: nat) { text.Some? ==> |text.value| <= n }

  function Bytes(content: string, title: Option<string>, language: Option<string>): nat {
    Utf8.ByteLength(content) + (if title.Some? then Utf8.ByteLength(title.value) else 0)
    + if language.Some? then Utf8.ByteLength(language.value) else 0
  }

  /** The sizes of all version rows of the connection's artifacts. */
  function RowSizes(db: Db, c: ConnId): map<VersionKey, nat> {
    map k | k in db.versions && k.artifact in db.artifacts && db.artifacts[k.artifact].connectionId == c ::
      db.versions[k].byteSize
  }

  /** One more row of this size fits the connection. */
  ghost predicate RoomForBytes(db: Db, cfg: Config, c: ConnId, size: nat) {
    size <= cfg.maxArtifactBytes && Total(RowSizes(db, c)) + size <= cfg.maxTotalBytes
  }

  function ArtifactsOf(db: Db, c: ConnId): set<ArtifactId> {
    set a | a in db.artifacts && db.artifacts[a].connectionId == c
  }

  predicate RoomForOneMore(db: Db, cfg: Config, c: ConnId) { |ArtifactsOf(db, c)| < cfg.maxArtifacts }

  lemma QuotaExactly(db: Db, cfg: Config, c: ConnId, size: nat)
    ensures NewArtifactQuota(db, cfg, c, size).None? <==> RoomForBytes(db, cfg, c, size) && RoomForOneMore(db, cfg, c)
    ensures UpdateQuota(db, cfg, c, size).None? <==> RoomForBytes(db, cfg, c, size)
  {
    assert StoredRows(db.artifacts, db.versions, c) == RowSizes(db, c);
    assert Owned(db.artifacts, c) == ArtifactsOf(db, c);
  }

  /** A publish goes through exactly for a known format, metadata within its limits, and room within all three caps;
      the early test of the characters never decides. */
  lemma PublishedExactly(db: Db, cfg: Config, c: ConnId, a: ArtifactId, content: string, format: string,
                         title: Option<string>, language: Option<string>)
    requires c in db.conns && a !in db.artifacts && VersionKey(a, 1) !in db.versions
    ensures Publish(db, cfg, c, a, content, format, title, language).Commit? <==>
            && FormatNamed(format).Some? && AtMostChars(title, 500) && AtMostChars(language, 100)
            && RoomForBytes(db, cfg, c, Bytes(content, title, language)) && RoomForOneMore(db, cfg, c)
    ensures FormatNamed(format).None? ==>
              Publish(db, cfg, c, a, content, format, title, language) == Refuse(InvalidFormat)
  {
    FormatsByName(format);
    QuotaExactly(db, cfg, c, Bytes(content, title, language));
    Utf8.LengthBounds(content);
  }

  function Kept<T>(given: Option<T>, current: Option<T>): Option<T> { if given.Some? then given else current }

  /** An update goes through exactly for the artifact's own connection, naming the current version, a known format or
      none, metadata within limits, and room for the bytes of what will be stored. A stale base is told as such. */
  lemma UpdatedExactly(db: Db, cfg: Config, c: ConnId, a: ArtifactId, content: string, base: int,
                       format: Option<string>, title: Option<string>, language: Option<string>)
    requires a in db.artifacts && VersionKey(a, db.artifacts[a].version + 1) !in db.versions
    ensures var row := db.artifacts[a];
            var size := Bytes(content, Kept(title, row.title), Kept(language, row.language));
            Update(db, cfg, c, a, content, base, format, title, language).Commit? <==>
            && row.connectionId == c && row.version == base && AtMostChars(title, 500) && AtMostChars(language, 100)
            && (format.Some? ==> FormatNamed(format.value).Some?) && RoomForBytes(db, cfg, c, size)
    ensures Update(db, cfg, c, a, content, base, format, title, language) == Refuse(VersionConflict) <==>
            && db.artifacts[a].connectionId == c && db.artifacts[a].version != base
            && |content| <= cfg.maxArtifactBytes && AtMostChars(title, 500) && AtMostChars(language, 100)
  {
    var row := db.artifacts[a];
    if format.Some? { FormatsByName(format.value); }
    QuotaExactly(db, cfg, c, Bytes(content, Kept(title, row.title), Kept(language, row.language)));
    Utf8.LengthBounds(content);
  }

  // ---- reassignment ----

  /** A reassignment goes through exactly from the owner to another of their connections that is not revoked and has
      room for the artifact as it is; then only the connection column of that one row changes. */
  lemma ReassignedExactly(db: Db, cfg: Config, u: UserId, a: ArtifactId, target: ConnId)
    ensures Reassign(db, cfg, u, a, target).Commit? <==>
            && Theirs(db, u, a) && target != db.artifacts[a].connectionId
            && target in db.conns && db.conns[target].userId == u && db.conns[target].revokedAt.None?
            && RoomForBytes(db, cfg, target, db.artifacts[a].byteSize) && RoomForOneMore(db, cfg, target)
    ensures Reassign(db, cfg, u, a, target).Commit? ==>
            var after := Reassign(db, cfg, u, a, target).db;
            && after == db.(artifacts := db.artifacts[a := db.artifacts[a].(connectionId := target)])
            && Theirs(after, u, a)
    ensures Theirs(db, u, a) && target in db.conns && db.conns[target].revokedAt.Some? ==>
              Reassign(db, cfg, u, a, target) == Refuse(InvalidTarget)
  {
    ReachesExactly(db, u, a);
    if a in db.artifacts { QuotaExactly(db, cfg, target, db.artifacts[a].byteSize); }
  }

  // ---- history ----

  /** The owner deletes any one version but the current, and nothing else goes. */
  lemma VersionDeletedExactly(db: Db, u: UserId, a: ArtifactId, v: int)
    ensures DeleteVersion(db, u, a, v).Commit? <==>
            Theirs(db, u, a) && v != db.artifacts[a].version && VersionKey(a, v) in db.versions
    ensures Theirs(db, u, a) && v == db.artifacts[a].version ==>
              DeleteVersion(db, u, a, v) == Refuse(CannotDeleteCurrent)
    ensures DeleteVersion(db, u, a, v).Commit? ==>
            var after := DeleteVersion(db, u, a, v).db;
            && after == db.(versions := after.versions)
            && (forall k :: k in after.versions <==> k in db.versions && k != VersionKey(a, v))
            && (forall k <- after.versions :: after.versions[k] == db.versions[k])
  {
    ReachesExactly(db, u, a);
  }

  /** The owner's pruning takes exactly the versions of that artifact that are not current. */
  lemma PrunedExactly(db: Db, u: UserId, a: ArtifactId)
    ensures Prune(db, u, a).Commit? <==> Theirs(db, u, a)
    ensures Prune(db, u, a).Commit? ==>
            var after := Prune(db, u, a).db;
            && after == db.(versions := after.versions)
            && (forall k :: k in after.versions <==>
                  k in db.versions && (k.artifact == a ==> k.version == db.artifacts[a].version))
            && (forall k <- after.versions :: after.versions[k] == db.versions[k])
  {
    ReachesExactly(db, u, a);
  }

  // ---- comments ----

  function CommentsOn(db: Db, a: ArtifactId): set<CommentId> {
    set m | m in db.comments && db.comments[m].artifactId == a
  }

  function BodySizes(db: Db, a: ArtifactId): map<CommentId, nat> {
    map m | m in db.comments && db.comments[m].artifactId == a :: |db.comments[m].body|
  }

  /** One more comment fits: the number of comments on the artifact, and their characters plus the new bytes. */
  ghost predicate RoomForComment(db: Db, cfg: Config, a: ArtifactId, body: string) {
    && |CommentsOn(db, a)| < cfg.maxComments
    && Total(BodySizes(db, a)) + Utf8.ByteLength(body) <= cfg.maxCommentBytes
  }

  lemma CommentQuotaExactly(db: Db, cfg: Config, a: ArtifactId, body: string)
    ensures CommentQuota(db, cfg, a, body).None? <==> RoomForComment(db, cfg, a, body)
  {
    assert CommentSizes(db.comments, a) == BodySizes(db, a);
    assert CommentSizes(db.comments, a).Keys == CommentsOn(db, a);
    assert |CommentSizes(db.comments, a)| == |CommentSizes(db.comments, a).Keys|;
  }

  predicate Adds(db: Db, tx: Tx, id: CommentId, row: CommentRow) {
    tx.Commit? ==> tx.db == db.(comments := db.comments[id := row])
  }

  /** A person comments exactly where they own or were given the artifact and there is room, and what is stored is what
      they wrote, under their name. */
  lemma CommentedExactly(db: Db, cfg: Config, u: UserId, a: ArtifactId, id: CommentId, body: string, now: Time)
    requires id !in db.comments && u in db.users
    ensures CreateComment(db, cfg, u, a, id, body, now).Commit? <==>
            Utf8.ByteLength(body) <= 100_000 && Reaches(db, u, a) && RoomForComment(db, cfg, a, body)
    ensures Adds(db, CreateComment(db, cfg, u, a, id, body, now), id,
                 CommentRow(a, None, ByUser(u), body, false, now))
  {
    ReachesExactly(db, u, a);
    CommentQuotaExactly(db, cfg, a, body);
  }

  /** A connection answers exactly the threads on its own artifacts, under its own name. */
  lemma RepliedExactly(db: Db, cfg: Config, c: ConnId, root: CommentId, id: CommentId, body: string, now: Time)
    requires id !in db.comments && c in db.conns && root in db.comments
    ensures var a := db.comments[root].artifactId;
            && (ReplyToComment(db, cfg, c, root, id, body, now).Commit? <==>
                  && Utf8.ByteLength(body) <= 100_000 && db.comments[root].parentId.None?
                  && a in db.artifacts && db.artifacts[a].connectionId == c && RoomForComment(db, cfg, a, body))
            && Adds(db, ReplyToComment(db, cfg, c, root, id, body, now), id,
                    CommentRow(a, Some(root), ByConnection(c), body, false, now))
  {
    CommentQuotaExactly(db, cfg, db.comments[root].artifactId, body);
  }

  /** A person answers exactly the threads on artifacts they own or were given. */
  lemma HumanRepliedExactly(db: Db, cfg: Config, u: UserId, root: CommentId, id: CommentId, body: string, now: Time)
    requires id !in db.comments && u in db.users && root in db.comments
    ensures var a := db.comments[root].artifactId;
            && (ReplyAsHuman(db, cfg, u, root, id, body, now).Commit? <==>
                  && Utf8.ByteLength(body) <= 100_000 && db.comments[root].parentId.None?
                  && Reaches(db, u, a) && RoomForComment(db, cfg, a, body))
            && Adds(db, ReplyAsHuman(db, cfg, u, root, id, body, now), id,
                    CommentRow(a, Some(root), ByUser(u), body, false, now))
  {
    ReachesExactly(db, u, db.comments[root].artifactId);
    CommentQuotaExactly(db, cfg, db.comments[root].artifactId, body);
  }

  /** Threads are resolved by the artifact's connection or by anyone with access, and deleted by the owner only. */
  lemma ThreadRequestsExactly(db: Db, c: ConnId, u: UserId, root: CommentId, a: ArtifactId)
    requires root in db.comments
    ensures var on := db.comments[root].artifactId;
            && (ResolveThread(db, c, root).Commit? <==>
                  db.comments[root].parentId.None? && on in db.artifacts && db.artifacts[on].connectionId == c)
            && (ToggleResolved(db, u, root).Commit? <==> db.comments[root].parentId.None? && Reaches(db, u, on))
            && (DeleteThread(db, u, a, root).Commit? <==>
                  db.comments[root].parentId.None? && on == a && Theirs(db, u, a))
  {
    ReachesExactly(db, u, db.comments[root].artifactId);
    ReachesExactly(db, u, a);
  }

  // ---- shares ----

  ghost predicate Named(db: Db, email: string, r: UserId) {
    && r in db.users && db.users[r] == email
    && forall v <- db.users :: db.users[v] == email ==> v == r
  }

  predicate AlreadyShared(db: Db, a: ArtifactId, r: UserId) {
    exists s <- db.shares :: db.shares[s].(sharedBy := 0) == ShareRow(a, r, 0)
  }

  /** The owner of `r`'s address may be let in exactly by the artifact's connection or its owner, unless it is the
      owner; unless they are in already, one row is added that says so. */
  lemma SharedExactly(db: Db, c: ConnId, u: UserId, a: ArtifactId, email: string, id: ShareId, r: UserId)
    requires Named(db, email, r) && id !in db.shares && a in db.artifacts
    ensures ShareArtifact(db, c, a, email, id).Commit? <==>
            db.artifacts[a].connectionId == c && c in db.conns && db.conns[c].userId != r
    ensures ShareFromDashboard(db, u, a, email, id).Commit? <==> Theirs(db, u, a) && u != r
    ensures ShareArtifact(db, c, a, email, id).Commit? ==>
              ShareArtifact(db, c, a, email, id).db == if AlreadyShared(db, a, r) then db
                else db.(shares := db.shares[id := ShareRow(a, r, c)])
    ensures ShareFromDashboard(db, u, a, email, id).Commit? ==>
              ShareFromDashboard(db, u, a, email, id).db == if AlreadyShared(db, a, r) then db
                else db.(shares := db.shares[id := ShareRow(a, r, db.artifacts[a].connectionId)])
  {
    ReachesExactly(db, u, a);
    RecipientFound(db, email, r);
    AlreadySharedExactly(db, a, r);
  }

  lemma RecipientFound(db: Db, email: string, r: UserId)
    requires Named(db, email, r)
    ensures UserByEmail(db.users, email) == Some(r)
  {
    assert HasEmail(db.users, r, email);
  }

  lemma AlreadySharedExactly(db: Db, a: ArtifactId, r: UserId)
    ensures SharedWith(db, a, r) <==> AlreadyShared(db, a, r)
  {
    if s :| s in db.shares && db.shares[s].artifactId == a && db.shares[s].sharedWith == r {
      assert db.shares[s].(sharedBy := 0) == ShareRow(a, r, 0);
    }
  }

  /** An address nobody has is told as such, and so is the owner's own. */
  lemma ShareRefusals(db: Db, u: UserId, a: ArtifactId, email: string, id: ShareId)
    requires Theirs(db, u, a)
    ensures (forall v <- db.users :: db.users[v] != email) ==>
              ShareFromDashboard(db, u, a, email, id) == Refuse(RecipientNotFound)
    ensures Named(db, email, u) ==> ShareFromDashboard(db, u, a, email, id) == Refuse(SelfShare)
  {
    ReachesExactly(db, u, a);
    if Named(db, email, u) { RecipientFound(db, email, u); }
  }

  /** The owner takes back exactly a share of that artifact, and no other row goes. */
  lemma UnsharedExactly(db: Db, u: UserId, a: ArtifactId, id: ShareId)
    ensures Unshare(db, u, a, id).Commit? <==>
            Theirs(db, u, a) && id in db.shares && db.shares[id].artifactId == a
    ensures Unshare(db, u, a, id).Commit? ==>
            var after := Unshare(db, u, a, id).db;
            && after == db.(shares := after.shares)
            && (forall s :: s in after.shares <==> s in db.shares && s != id)
            && (forall s <- after.shares :: after.shares[s] == db.shares[s])
  {
    ReachesExactly(db, u, a);
  }
}
