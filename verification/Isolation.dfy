/** What other people can do to an artifact: over any run of content requests, nothing, unless it was shared with
    them, and then only add to its threads. */
module Isolation {
  import opened Basics
  import opened Schema
  import opened Content
  import opened Acceptance
  import opened ContentIntegrity
  import ArtifactHistory

  /** The person behind a request: the user, or the user of the connection. */
  function Actor(db: Db, q: Request): Option<UserId> {
    match q
    case DoPublish(c, _, _, _, _, _) => UserOf(db, c)
    case DoUpdate(c, _, _, _, _, _, _) => UserOf(db, c)
    case DoReassign(u, _, _) => Some(u)
    case DoDeleteVersion(u, _, _) => Some(u)
    case DoPrune(u, _) => Some(u)
    case DoDeleteArtifact(u, _) => Some(u)
    case DoAdminDelete(_) => None
    case DoComment(u, _, _, _, _) => Some(u)
    case DoReply(c, _, _, _, _) => UserOf(db, c)
    case DoHumanReply(u, _, _, _, _) => Some(u)
    case DoResolve(c, _) => UserOf(db, c)
    case DoToggle(u, _) => Some(u)
    case DoDeleteThread(u, _, _) => Some(u)
    case DoShare(c, _, _, _) => UserOf(db, c)
    case DoDashboardShare(u, _, _, _) => Some(u)
    case DoUnshare(u, _, _) => Some(u)
  }

  function UserOf(db: Db, c: ConnId): Option<UserId> {
    if c in db.conns then Some(db.conns[c].userId) else None
  }

  /** Neither the owner nor the administrator. */
  predicate BySomeoneElse(db: Db, q: Request, owner: UserId) { !q.DoAdminDelete? && Actor(db, q) != Some(owner) }

  /** The artifact's row, its whole history and its shares are as they were. */
  ghost predicate SameArtifact(before: Db, after: Db, a: ArtifactId) {
    && a in before.artifacts && a in after.artifacts && after.artifacts[a] == before.artifacts[a]
    && (forall v :: VersionKey(a, v) in after.versions <==> VersionKey(a, v) in before.versions)
    && (forall v | VersionKey(a, v) in before.versions ::
          after.versions[VersionKey(a, v)] == before.versions[VersionKey(a, v)])
    && (forall s <- before.shares :: before.shares[s].artifactId == a ==>
          s in after.shares && after.shares[s] == before.shares[s])
    && (forall s <- after.shares :: after.shares[s].artifactId == a ==>
          s in before.shares && after.shares[s] == before.shares[s])
  }

  /** No comment on the artifact is gone or rewritten; at most one is marked resolved or unresolved. */
  ghost predicate CommentsStand(before: Db, after: Db, a: ArtifactId) {
    forall m <- before.comments :: before.comments[m].artifactId == a ==>
      m in after.comments && after.comments[m].(resolved := before.comments[m].resolved) == before.comments[m]
  }

  /** The threads of the artifact are as they were, down to the mark. */
  ghost predicate SameThreads(before: Db, after: Db, a: ArtifactId) {
    && (forall m <- before.comments :: before.comments[m].artifactId == a ==>
          m in after.comments && after.comments[m] == before.comments[m])
    && (forall m <- after.comments :: after.comments[m].artifactId == a ==> m in before.comments)
  }

  /** All of that. */
  ghost predicate Left(before: Db, after: Db, a: ArtifactId) {
    SameArtifact(before, after, a) && SameThreads(before, after, a)
  }

  // ---- requests on another artifact ----

  lemma PublishElsewhere(db: Db, c: ConnId, b: ArtifactId, row: VersionRow, a: ArtifactId)
    requires a in db.artifacts
    ensures Left(db, After(db, PublishCommit(db, c, b, row)), a)
  {
  }

  lemma UpdateElsewhere(db: Db, cfg: Config, c: ConnId, b: ArtifactId, content: string, base: int,
                        format: Option<string>, title: Option<string>, language: Option<string>, a: ArtifactId)
    requires a in db.artifacts && db.artifacts[a].connectionId != c
    ensures Left(db, After(db, Update(db, cfg, c, b, content, base, format, title, language)), a)
  {
    if Update(db, cfg, c, b, content, base, format, title, language).Commit? {
      var parsed := if format.Some? then ParseFormat(format.value) else Some(db.artifacts[b].format);
      var row := NewVersion(db.artifacts[b], content, parsed.value, title, language);
      ArtifactHistory.UpdateRetains(db, cfg, b, base, row);
    }
  }

  lemma ReassignElsewhere(db: Db, cfg: Config, u: UserId, b: ArtifactId, target: ConnId, a: ArtifactId)
    requires a in db.artifacts && a != b
    ensures Left(db, After(db, Reassign(db, cfg, u, b, target)), a)
  {
  }

  lemma VersionElsewhere(db: Db, u: UserId, b: ArtifactId, v: int, a: ArtifactId)
    requires a in db.artifacts && a != b
    ensures Left(db, After(db, DeleteVersion(db, u, b, v)), a)
  {
  }

  lemma PruneElsewhere(db: Db, u: UserId, b: ArtifactId, a: ArtifactId)
    requires a in db.artifacts && a != b
    ensures Left(db, After(db, Prune(db, u, b)), a)
  {
  }

  lemma DeletionElsewhere(db: Db, u: UserId, b: ArtifactId, a: ArtifactId)
    requires a in db.artifacts && a != b
    ensures Left(db, After(db, DeleteArtifact(db, u, b)), a)
  {
  }

  lemma ShareElsewhere(db: Db, b: ArtifactId, owner: UserId, sharer: ConnId, email: string, id: ShareId, a: ArtifactId)
    requires a in db.artifacts && a != b
    ensures Left(db, After(db, CreateShare(db, b, owner, sharer, email, id)), a)
  {
  }

  lemma UnshareElsewhere(db: Db, u: UserId, b: ArtifactId, id: ShareId, a: ArtifactId)
    requires a in db.artifacts && a != b
    ensures Left(db, After(db, Unshare(db, u, b, id)), a)
  {
  }

  lemma OnlyCommentsChange(db: Db, d: Db, a: ArtifactId)
    requires a in db.artifacts && d == db.(comments := d.comments)
    ensures SameArtifact(db, d, a)
  {
  }

  /** Writing one comment row, new or old, that is not and was not on the artifact. */
  lemma RowElsewhere(db: Db, m: CommentId, row: CommentRow, a: ArtifactId)
    requires a in db.artifacts && row.artifactId != a && (m in db.comments ==> db.comments[m].artifactId != a)
    ensures Left(db, db.(comments := db.comments[m := row]), a)
  {
    OnlyCommentsChange(db, db.(comments := db.comments[m := row]), a);
  }

  lemma CommentElsewhere(db: Db, cfg: Config, id: CommentId, row: CommentRow, a: ArtifactId)
    requires a in db.artifacts && row.artifactId != a
    ensures Left(db, After(db, InsertComment(db, cfg, id, row)), a)
  {
    OnlyCommentsChange(db, db, a);
    if InsertComment(db, cfg, id, row).Commit? { RowElsewhere(db, id, row, a); }
  }

  lemma ResolveElsewhere(db: Db, c: ConnId, root: CommentId, a: ArtifactId)
    requires a in db.artifacts && db.artifacts[a].connectionId != c
    ensures Left(db, After(db, ResolveThread(db, c, root)), a)
  {
    OnlyCommentsChange(db, db, a);
    if ResolveThread(db, c, root).Commit? {
      RowElsewhere(db, root, db.comments[root].(resolved := true), a);
    }
  }

  lemma ThreadDeletedElsewhere(db: Db, u: UserId, b: ArtifactId, root: CommentId, a: ArtifactId)
    requires ThreadsOk(db.comments) && a in db.artifacts && !Theirs(db, u, a)
    ensures Left(db, After(db, DeleteThread(db, u, b, root)), a)
  {
    ReachesExactly(db, u, b);
  }

  // ---- requests of other people ----

  lemma OthersLeaveRows(db: Db, cfg: Config, q: Request, a: ArtifactId, owner: UserId)
    requires Theirs(db, owner, a) && BySomeoneElse(db, q, owner)
    requires q.DoPublish? || q.DoUpdate? || q.DoReassign? || q.DoDeleteVersion? || q.DoPrune? || q.DoDeleteArtifact?
    ensures Left(db, After(db, Perform(db, cfg, q)), a)
  {
    match q
    case DoPublish(c, b, content, format, title, language) =>
      if ParseFormat(format).Some? {
        PublishElsewhere(db, c, b, VersionRow(title, ParseFormat(format).value, language, content,
                                              ByteSize(content, title, language)), a);
      }
    case DoUpdate(c, b, content, base, format, title, language) =>
      UpdateElsewhere(db, cfg, c, b, content, base, format, title, language, a);
    case DoReassign(u, b, target) =>
      if b == a { Strangers(db, cfg, q, a, u); } else { ReassignElsewhere(db, cfg, u, b, target, a); }
    case DoDeleteVersion(u, b, v) =>
      if b == a { Strangers(db, cfg, q, a, u); } else { VersionElsewhere(db, u, b, v, a); }
    case DoPrune(u, b) => if b == a { Strangers(db, cfg, q, a, u); } else { PruneElsewhere(db, u, b, a); }
    case DoDeleteArtifact(u, b) => if b == a { Strangers(db, cfg, q, a, u); } else { DeletionElsewhere(db, u, b, a); }
  }

  /** A stranger's request of the owner's kind is refused. */
  lemma Strangers(db: Db, cfg: Config, q: Request, a: ArtifactId, u: UserId)
    requires a in db.artifacts && !Theirs(db, u, a)
    requires q == DoPrune(u, a) || q == DoDeleteArtifact(u, a) || (q.DoReassign? && q.u == u && q.a == a)
          || (q.DoDeleteVersion? && q.u == u && q.a == a) || (q.DoDashboardShare? && q.u == u && q.a == a)
          || (q.DoUnshare? && q.u == u && q.a == a)
    ensures Left(db, After(db, Perform(db, cfg, q)), a)
  {
    ReachesExactly(db, u, a);
  }

  lemma OthersLeaveShares(db: Db, cfg: Config, q: Request, a: ArtifactId, owner: UserId)
    requires ThreadsOk(db.comments) && Theirs(db, owner, a) && BySomeoneElse(db, q, owner)
    requires q.DoShare? || q.DoDashboardShare? || q.DoUnshare? || q.DoDeleteThread? || q.DoReply? || q.DoResolve?
    ensures Left(db, After(db, Perform(db, cfg, q)), a)
  {
    match q
    case DoShare(c, b, email, id) =>
      if OwnedBy(db, c, b) && c in db.conns { ShareElsewhere(db, b, db.conns[c].userId, c, email, id, a); }
    case DoDashboardShare(u, b, email, id) =>
      if b == a { Strangers(db, cfg, q, a, u); }
      else if OwnedByUser(db, u, b) { ShareElsewhere(db, b, u, db.artifacts[b].connectionId, email, id, a); }
    case DoUnshare(u, b, id) =>
      if b == a { Strangers(db, cfg, q, a, u); } else { UnshareElsewhere(db, u, b, id, a); }
    case DoDeleteThread(u, b, root) => ThreadDeletedElsewhere(db, u, b, root, a);
    case DoReply(c, root, id, body, now) =>
      if IsRoot(db, root) && OwnedBy(db, c, db.comments[root].artifactId) && c in db.conns {
        CommentElsewhere(db, cfg, id,
          CommentRow(db.comments[root].artifactId, Some(root), ByConnection(c), body, false, now), a);
      }
    case DoResolve(c, root) => ResolveElsewhere(db, c, root, a);
  }

  /** Writing one comment row that adds or marks: nothing on the artifact is taken or rewritten. */
  lemma RowStands(db: Db, m: CommentId, row: CommentRow, a: ArtifactId)
    requires a in db.artifacts && (m in db.comments ==> row.(resolved := db.comments[m].resolved) == db.comments[m])
    ensures CommentsStand(db, db.(comments := db.comments[m := row]), a)
  {
  }

  lemma GuestWrites(db: Db, cfg: Config, u: UserId, id: CommentId, row: CommentRow, a: ArtifactId)
    requires a in db.artifacts && (row.artifactId == a ==> Reaches(db, u, a))
    ensures var d := After(db, InsertComment(db, cfg, id, row));
            SameArtifact(db, d, a) && CommentsStand(db, d, a) && (!Reaches(db, u, a) ==> SameThreads(db, d, a))
  {
    OnlyCommentsChange(db, After(db, InsertComment(db, cfg, id, row)), a);
    if row.artifactId != a { CommentElsewhere(db, cfg, id, row, a); }
    if InsertComment(db, cfg, id, row).Commit? { RowStands(db, id, row, a); }
  }

  lemma GuestToggles(db: Db, u: UserId, root: CommentId, a: ArtifactId)
    requires a in db.artifacts
    ensures var d := After(db, ToggleResolved(db, u, root));
            SameArtifact(db, d, a) && CommentsStand(db, d, a) && (!Reaches(db, u, a) ==> SameThreads(db, d, a))
  {
    OnlyCommentsChange(db, After(db, ToggleResolved(db, u, root)), a);
    ReachesExactly(db, u, a);
    if ToggleResolved(db, u, root).Commit? {
      var row := db.comments[root].(resolved := !db.comments[root].resolved);
      RowStands(db, root, row, a);
      if row.artifactId != a { RowElsewhere(db, root, row, a); }
    }
  }

  lemma GuestsOnlyAdd(db: Db, cfg: Config, q: Request, a: ArtifactId)
    requires a in db.artifacts && (q.DoComment? || q.DoHumanReply? || q.DoToggle?)
    ensures var d := After(db, Perform(db, cfg, q));
            SameArtifact(db, d, a) && CommentsStand(db, d, a) && (!Reaches(db, q.u, a) ==> SameThreads(db, d, a))
  {
    OnlyCommentsChange(db, db, a);
    match q
    case DoComment(u, b, id, body, now) =>
      ReachesExactly(db, u, b);
      if Accessible(db, u, b) { GuestWrites(db, cfg, u, id, CommentRow(b, None, ByUser(u), body, false, now), a); }
    case DoHumanReply(u, root, id, body, now) =>
      if IsRoot(db, root) && Accessible(db, u, db.comments[root].artifactId) {
        var b := db.comments[root].artifactId;
        ReachesExactly(db, u, b);
        GuestWrites(db, cfg, u, id, CommentRow(b, Some(root), ByUser(u), body, false, now), a);
      }
    case DoToggle(u, root) => GuestToggles(db, u, root, a);
  }

  /** What one request of somebody else may do to the artifact. */
  ghost predicate Tolerable(before: Db, after: Db, a: ArtifactId) {
    && SameArtifact(before, after, a) && CommentsStand(before, after, a)
    && after.conns == before.conns && after.users == before.users
  }

  /** One request of anybody but the owner and the administrator leaves the artifact, its history and its shares as
      they were and takes or rewrites no comment; and unless it was shared with them, its threads too. */
  lemma OthersLeaveIt(db: Db, cfg: Config, q: Request, a: ArtifactId, owner: UserId)
    requires ContentOk(db) && Theirs(db, owner, a) && BySomeoneElse(db, q, owner)
    ensures var d := After(db, Perform(db, cfg, q));
            && Tolerable(db, d, a) && Theirs(d, owner, a)
            && (Actor(db, q).None? || !Reaches(db, Actor(db, q).value, a) ==> SameThreads(db, d, a))
  {
    var d := After(db, Perform(db, cfg, q));
    assert SparesCredentials(db, Perform(db, cfg, q));
    if q.DoComment? || q.DoHumanReply? || q.DoToggle? { GuestsOnlyAdd(db, cfg, q, a); }
    else if q.DoShare? || q.DoDashboardShare? || q.DoUnshare? || q.DoDeleteThread? || q.DoReply? || q.DoResolve? {
      OthersLeaveShares(db, cfg, q, a, owner);
    } else {
      OthersLeaveRows(db, cfg, q, a, owner);
    }
  }

  // ---- runs ----

  lemma TolerableTwice(x: Db, y: Db, z: Db, a: ArtifactId)
    requires Tolerable(x, y, a) && Tolerable(y, z, a)
    ensures Tolerable(x, z, a)
  {
  }

  lemma TolerableAtAll(x: Db, a: ArtifactId)
    requires a in x.artifacts
    ensures Tolerable(x, x, a)
  {
  }

  /** However many requests other people make: an artifact keeps its row, its whole history, its shares and every word
      of every comment. */
  lemma {:induction false} OnlyTheOwnerChangesIt(db: Db, cfg: Config, requests: seq<Request>, a: ArtifactId,
                                                 owner: UserId)
    requires ContentOk(db) && Theirs(db, owner, a) && forall q <- requests :: BySomeoneElse(db, q, owner)
    ensures Tolerable(db, ArtifactHistory.PerformAll(db, cfg, requests), a)
    decreases |requests|
  {
    if requests == [] {
      TolerableAtAll(db, a);
    } else {
      var q := requests[0];
      var d := After(db, Perform(db, cfg, q));
      assert q in requests;
      OthersLeaveIt(db, cfg, q, a, owner);
      PerformKeeps(db, cfg, q);
      forall p | p in requests[1..] ensures BySomeoneElse(d, p, owner) { assert p in requests; }
      OnlyTheOwnerChangesIt(d, cfg, requests[1..], a, owner);
      TolerableTwice(db, d, ArtifactHistory.PerformAll(db, cfg, requests), a);
    }
  }
}
