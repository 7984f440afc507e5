/** Referential integrity of the content tables, and of the whole schema in every interleaved run. */
module ContentIntegrity {
  import opened Basics
  import opened Schema
  import opened Content
  import opened OAuth

  /** Every reply hangs off a thread root on the same artifact. */
  ghost predicate ThreadsOk(comments: map<CommentId, CommentRow>) {
    forall m <- comments :: comments[m].parentId.Some? ==>
      var p := comments[m].parentId.value;
      p in comments && comments[p].parentId.None? && comments[p].artifactId == comments[m].artifactId
  }

  /** UNIQUE (artifact_id, shared_with_user_id) */
  ghost predicate SharesUnique(shares: map<ShareId, ShareRow>) {
    forall s, t | s in shares && t in shares && shares[s].artifactId == shares[t].artifactId
                  && shares[s].sharedWith == shares[t].sharedWith :: s == t
  }

  /** Stored versions lie in 1..current. */
  ghost predicate VersionsBounded(versions: map<VersionKey, VersionRow>, artifacts: map<ArtifactId, ArtifactRow>) {
    && (forall k <- versions :: k.artifact in artifacts && 1 <= k.version <= artifacts[k.artifact].version)
    && (forall a <- artifacts :: 1 <= artifacts[a].version)
  }

  ghost predicate ContentOk(db: Db) {
    ContentKeys(db) && ThreadsOk(db.comments) && SharesUnique(db.shares) && VersionsBounded(db.versions, db.artifacts)
  }

  // ---- one kind of request at a time ----

  lemma PublishKeeps(db: Db, c: ConnId, a: ArtifactId, row: VersionRow)
    requires ContentOk(db)
    ensures ContentOk(After(db, PublishCommit(db, c, a, row)))
  {
    var after := After(db, PublishCommit(db, c, a, row));
    assert ArtifactsRefer(after.artifacts, after.conns) && VersionsRefer(after.versions, after.artifacts);
    PublishBounds(db, c, a, row);
  }

  lemma PublishBounds(db: Db, c: ConnId, a: ArtifactId, row: VersionRow)
    requires VersionsBounded(db.versions, db.artifacts)
    ensures var after := After(db, PublishCommit(db, c, a, row)); VersionsBounded(after.versions, after.artifacts)
  {
  }

  lemma UpdateKeeps(db: Db, cfg: Config, a: ArtifactId, base: int, row: VersionRow)
    requires ContentOk(db) && (a in db.artifacts ==> db.artifacts[a].version == base)
    ensures ContentOk(After(db, UpdateCommit(db, cfg, a, base, row)))
  {
  }

  lemma ReassignKeeps(db: Db, a: ArtifactId, target: ConnId)
    requires ContentOk(db)
    ensures ContentOk(After(db, ReassignCommit(db, a, target)))
  {
  }

  lemma HistoryKeeps(db: Db, a: ArtifactId, keep: int, v: int)
    requires ContentOk(db)
    ensures ContentOk(db.(versions := AllButVersion(db, a, keep)))
    ensures ContentOk(db.(versions := db.versions - {VersionKey(a, v)}))
  {
  }

  /** Comments, shares and versions go with their artifact; replies never lose their root first. */
  lemma WithoutArtifactKeeps(db: Db, a: ArtifactId)
    requires ContentOk(db)
    ensures ContentOk(WithoutArtifact(db, a))
  {
  }

  lemma AddCommentKeeps(db: Db, id: CommentId, row: CommentRow)
    requires ContentOk(db) && id !in db.comments
    requires row.artifactId in db.artifacts && AuthorExists(row.author, db.conns, db.users)
    requires row.parentId.Some? ==>
      IsRoot(db, row.parentId.value) && db.comments[row.parentId.value].artifactId == row.artifactId
    ensures ContentOk(db.(comments := db.comments[id := row]))
  {
  }

  lemma InsertCommentKeeps(db: Db, cfg: Config, id: CommentId, row: CommentRow)
    requires ContentOk(db) && row.artifactId in db.artifacts && AuthorExists(row.author, db.conns, db.users)
    requires row.parentId.Some? ==>
      IsRoot(db, row.parentId.value) && db.comments[row.parentId.value].artifactId == row.artifactId
    ensures ContentOk(After(db, InsertComment(db, cfg, id, row)))
  {
    if InsertComment(db, cfg, id, row).Commit? {
      AddCommentKeeps(db, id, row);
    }
  }

  lemma SetResolvedKeeps(db: Db, root: CommentId, resolved: bool)
    requires ContentOk(db) && root in db.comments
    ensures ContentOk(db.(comments := db.comments[root := db.comments[root].(resolved := resolved)]))
  {
  }

  lemma DeleteThreadKeeps(db: Db, u: UserId, a: ArtifactId, root: CommentId)
    requires ContentOk(db)
    ensures ContentOk(After(db, DeleteThread(db, u, a, root)))
  {
  }

  lemma CreateShareKeeps(db: Db, a: ArtifactId, owner: UserId, sharer: ConnId, email: string, id: ShareId)
    requires ContentOk(db) && a in db.artifacts && sharer in db.conns
    ensures ContentOk(After(db, CreateShare(db, a, owner, sharer, email, id)))
  {
  }

  lemma UnshareKeeps(db: Db, u: UserId, a: ArtifactId, id: ShareId)
    requires ContentOk(db)
    ensures ContentOk(After(db, Unshare(db, u, a, id)))
  {
  }

  lemma PublishRequestKeeps(db: Db, cfg: Config, c: ConnId, a: ArtifactId, content: string, format: string,
                            title: Option<string>, language: Option<string>)
    requires ContentOk(db)
    ensures ContentOk(After(db, Publish(db, cfg, c, a, content, format, title, language)))
  {
    if ParseFormat(format).Some? {
      PublishKeeps(db, c, a,
                   VersionRow(title, ParseFormat(format).value, language, content, ByteSize(content, title, language)));
    }
  }

  lemma UpdateRequestKeeps(db: Db, cfg: Config, c: ConnId, a: ArtifactId, content: string, base: int,
                           format: Option<string>, title: Option<string>, language: Option<string>)
    requires ContentOk(db)
    ensures ContentOk(After(db, Update(db, cfg, c, a, content, base, format, title, language)))
  {
    if OwnedBy(db, c, a) && db.artifacts[a].version == base {
      var parsed := if format.Some? then ParseFormat(format.value) else Some(db.artifacts[a].format);
      if parsed.Some? {
        UpdateKeeps(db, cfg, a, base, NewVersion(db.artifacts[a], content, parsed.value, title, language));
      }
    }
  }

  lemma CommentKeeps(db: Db, cfg: Config, u: UserId, a: ArtifactId, id: CommentId, body: string, now: Time)
    requires ContentOk(db)
    ensures ContentOk(After(db, CreateComment(db, cfg, u, a, id, body, now)))
  {
    if Accessible(db, u, a) && u in db.users {
      InsertCommentKeeps(db, cfg, id, CommentRow(a, None, ByUser(u), body, false, now));
    }
  }

  lemma ReplyKeeps(db: Db, cfg: Config, c: ConnId, root: CommentId, id: CommentId, body: string, now: Time)
    requires ContentOk(db)
    ensures ContentOk(After(db, ReplyToComment(db, cfg, c, root, id, body, now)))
  {
    if IsRoot(db, root) && c in db.conns {
      InsertCommentKeeps(db, cfg, id,
                         CommentRow(db.comments[root].artifactId, Some(root), ByConnection(c), body, false, now));
    }
  }

  lemma HumanReplyKeeps(db: Db, cfg: Config, u: UserId, root: CommentId, id: CommentId, body: string, now: Time)
    requires ContentOk(db)
    ensures ContentOk(After(db, ReplyAsHuman(db, cfg, u, root, id, body, now)))
  {
    if IsRoot(db, root) && u in db.users {
      InsertCommentKeeps(db, cfg, id,
                         CommentRow(db.comments[root].artifactId, Some(root), ByUser(u), body, false, now));
    }
  }

  lemma ShareKeeps(db: Db, c: ConnId, a: ArtifactId, email: string, id: ShareId)
    requires ContentOk(db)
    ensures ContentOk(After(db, ShareArtifact(db, c, a, email, id)))
  {
    if OwnedBy(db, c, a) && c in db.conns { CreateShareKeeps(db, a, db.conns[c].userId, c, email, id); }
  }

  lemma DashboardShareKeeps(db: Db, u: UserId, a: ArtifactId, email: string, id: ShareId)
    requires ContentOk(db)
    ensures ContentOk(After(db, ShareFromDashboard(db, u, a, email, id)))
  {
    if OwnedByUser(db, u, a) { CreateShareKeeps(db, a, u, db.artifacts[a].connectionId, email, id); }
  }

  lemma ResolveKeeps(db: Db, c: ConnId, u: UserId, root: CommentId)
    requires ContentOk(db)
    ensures ContentOk(After(db, ResolveThread(db, c, root)))
    ensures ContentOk(After(db, ToggleResolved(db, u, root)))
  {
    if IsRoot(db, root) {
      SetResolvedKeeps(db, root, true);
      SetResolvedKeeps(db, root, !db.comments[root].resolved);
    }
  }

  lemma HistoryRequestsKeep(db: Db, u: UserId, a: ArtifactId, v: int)
    requires ContentOk(db)
    ensures ContentOk(After(db, DeleteVersion(db, u, a, v)))
    ensures ContentOk(After(db, Prune(db, u, a)))
  {
    HistoryKeeps(db, a, if a in db.artifacts then db.artifacts[a].version else 0, v);
  }

  lemma ArtifactRequestsKeep(db: Db, cfg: Config, q: Request)
    requires ContentOk(db) && IsArtifactRequest(q)
    ensures ContentOk(After(db, Perform(db, cfg, q)))
  {
    match q
    case DoPublish(c, a, content, format, title, language) =>
      PublishRequestKeeps(db, cfg, c, a, content, format, title, language);
    case DoUpdate(c, a, content, base, format, title, language) =>
      UpdateRequestKeeps(db, cfg, c, a, content, base, format, title, language);
    case DoReassign(u, a, target) => ReassignKeeps(db, a, target);
    case DoDeleteVersion(u, a, v) => HistoryRequestsKeep(db, u, a, v);
    case DoPrune(u, a) => HistoryRequestsKeep(db, u, a, 0);
    case DoDeleteArtifact(u, a) => WithoutArtifactKeeps(db, a);
    case DoAdminDelete(a) => WithoutArtifactKeeps(db, a);
  }

  predicate IsArtifactRequest(q: Request) {
    || q.DoPublish? || q.DoUpdate? || q.DoReassign? || q.DoDeleteVersion? || q.DoPrune?
    || q.DoDeleteArtifact? || q.DoAdminDelete?
  }

  /** No request leaves a dangling reference: the foreign-key enforcement never fires on a delete. */
  lemma PerformKeeps(db: Db, cfg: Config, q: Request)
    requires ContentOk(db)
    ensures ContentOk(After(db, Perform(db, cfg, q)))
  {
    if IsArtifactRequest(q) { ArtifactRequestsKeep(db, cfg, q); } else { DiscussionRequestsKeep(db, cfg, q); }
  }

  lemma DiscussionRequestsKeep(db: Db, cfg: Config, q: Request)
    requires ContentOk(db) && !IsArtifactRequest(q)
    ensures ContentOk(After(db, Perform(db, cfg, q)))
  {
    match q
    case DoComment(u, a, id, body, now) => CommentKeeps(db, cfg, u, a, id, body, now);
    case DoReply(c, root, id, body, now) => ReplyKeeps(db, cfg, c, root, id, body, now);
    case DoHumanReply(u, root, id, body, now) => HumanReplyKeeps(db, cfg, u, root, id, body, now);
    case DoResolve(c, root) => ResolveKeeps(db, c, 0, root);
    case DoToggle(u, root) => ResolveKeeps(db, 0, u, root);
    case DoDeleteThread(u, a, root) => DeleteThreadKeeps(db, u, a, root);
    case DoShare(c, a, email, id) => ShareKeeps(db, c, a, email, id);
    case DoDashboardShare(u, a, email, id) => DashboardShareKeeps(db, u, a, email, id);
    case DoUnshare(u, a, id) => UnshareKeeps(db, u, a, id);
  }

  /** Deleting a connection is refused while an artifact, a comment or a share refers to it. */
  lemma DeleteConnectionKeeps(db: Db, c: ConnId)
    requires ContentOk(db)
    ensures ContentOk(After(db, DeleteConnection(db, c)))
  {
  }
}
