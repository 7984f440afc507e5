/** comments.py and shares.py, statement by statement, against the transactions of Content. */
module DiscussionTools {
  import opened Basics
  import opened Schema
  import opened Content
  import opened Database
  import Acceptance
  import Utf8

  // ---- comments.py ----

  /** _check_artifact_comment_quota */
  method CheckArtifactCommentQuota(store: Store, cfg: Config, a: ArtifactId, body: string)
      returns (error: Option<Error>)
    ensures error == CommentQuota(store.Rows(), cfg, a, body)
  {
    var sizes := CommentSizes(store.comments, a);
    var total := SelectSum(sizes);
    if |sizes| >= cfg.maxComments { return Some(QuotaExceeded); }
    if total + Utf8.ByteLength(body) > cfg.maxCommentBytes { return Some(QuotaExceeded); }
    return None;
  }

  method AddComment(store: Store, cfg: Config, id: CommentId, row: CommentRow) returns (error: Option<Error>)
    modifies store
    ensures Ran(old(store.Rows()), store.Rows(), InsertComment(old(store.Rows()), cfg, id, row), error)
  {
    error := CheckArtifactCommentQuota(store, cfg, row.artifactId, row.body);
    if error.Some? { return; }
    if id in store.comments { return Some(IntegrityError); }
    store.comments := store.comments[id := row];
  }

  /** create_comment */
  method CommentOnArtifact(store: Store, cfg: Config, u: UserId, a: ArtifactId, id: CommentId, body: string, now: Time)
    returns (error: Option<Error>)
    modifies store
    ensures Ran(old(store.Rows()), store.Rows(), CreateComment(old(store.Rows()), cfg, u, a, id, body, now), error)
  {
    if Utf8.ByteLength(body) > MAX_COMMENT { return Some(CommentTooLarge); }
    if !Accessible(store.Rows(), u, a) { return Some(NotFound); }
    if u !in store.users { return Some(IntegrityError); }
    error := AddComment(store, cfg, id, CommentRow(a, None, ByUser(u), body, false, now));
  }

  /** reply_to_comment */
  method ReplyFromConnection(store: Store, cfg: Config, c: ConnId, root: CommentId, id: CommentId, body: string,
                             now: Time)
    returns (error: Option<Error>)
    modifies store
    ensures Ran(old(store.Rows()), store.Rows(), ReplyToComment(old(store.Rows()), cfg, c, root, id, body, now), error)
  {
    if Utf8.ByteLength(body) > MAX_COMMENT { return Some(CommentTooLarge); }
    if !IsRoot(store.Rows(), root) { return Some(NotFound); }
    var a := store.comments[root].artifactId;
    if !OwnedBy(store.Rows(), c, a) { return Some(NotFound); }
    if c !in store.conns { return Some(IntegrityError); }
    error := AddComment(store, cfg, id, CommentRow(a, Some(root), ByConnection(c), body, false, now));
  }

  /** reply_as_human */
  method ReplyFromUser(store: Store, cfg: Config, u: UserId, root: CommentId, id: CommentId, body: string, now: Time)
    returns (error: Option<Error>)
    modifies store
    ensures Ran(old(store.Rows()), store.Rows(), ReplyAsHuman(old(store.Rows()), cfg, u, root, id, body, now), error)
  {
    if Utf8.ByteLength(body) > MAX_COMMENT { return Some(CommentTooLarge); }
    if !IsRoot(store.Rows(), root) { return Some(NotFound); }
    var a := store.comments[root].artifactId;
    if !Accessible(store.Rows(), u, a) { return Some(NotFound); }
    if u !in store.users { return Some(IntegrityError); }
    error := AddComment(store, cfg, id, CommentRow(a, Some(root), ByUser(u), body, false, now));
  }

  /** resolve_comment_thread */
  method ResolveFromConnection(store: Store, c: ConnId, root: CommentId) returns (error: Option<Error>)
    modifies store
    ensures Ran(old(store.Rows()), store.Rows(), ResolveThread(old(store.Rows()), c, root), error)
  {
    if !IsRoot(store.Rows(), root) { return Some(NotFound); }
    if !OwnedBy(store.Rows(), c, store.comments[root].artifactId) { return Some(NotFound); }
    store.comments := store.comments[root := store.comments[root].(resolved := true)];
    return None;
  }

  /** toggle_resolved, which also reports the new state */
  method ToggleFromDashboard(store: Store, u: UserId, root: CommentId) returns (error: Option<Error>, resolved: bool)
    modifies store
    ensures Ran(old(store.Rows()), store.Rows(), ToggleResolved(old(store.Rows()), u, root), error)
    ensures error.None? ==> root in store.comments && resolved == store.comments[root].resolved
  {
    if !IsRoot(store.Rows(), root) { return Some(NotFound), false; }
    if !Accessible(store.Rows(), u, store.comments[root].artifactId) { return Some(NotFound), false; }
    resolved := !store.comments[root].resolved;
    store.comments := store.comments[root := store.comments[root].(resolved := resolved)];
    return None, resolved;
  }

  /** delete_thread: the replies, then the root */
  method DeleteOwnedThread(store: Store, u: UserId, a: ArtifactId, root: CommentId) returns (error: Option<Error>)
    modifies store
    ensures Ran(old(store.Rows()), store.Rows(), DeleteThread(old(store.Rows()), u, a, root), error)
    ensures !Acceptance.Theirs(old(store.Rows()), u, a) ==> error == Some(NotFound)
  {
    Acceptance.ReachesExactly(store.Rows(), u, a);
    if !OwnedByUser(store.Rows(), u, a) { return Some(NotFound); }
    if !IsRoot(store.Rows(), root) { return Some(NotFound); }
    if store.comments[root].artifactId != a { return Some(NotFound); }
    store.comments := map m | m in store.comments && store.comments[m].parentId != Some(root) :: store.comments[m];
    store.comments := store.comments - {root};
    return None;
  }

  // ---- shares.py ----

  /** _create_share, with `added` for the answer's `not already_shared` */
  method AddShare(store: Store, a: ArtifactId, owner: UserId, sharer: ConnId, email: string, id: ShareId)
    returns (error: Option<Error>, added: bool)
    requires store.Valid()
    modifies store`shares
    ensures Ran(old(store.Rows()), store.Rows(), CreateShare(old(store.Rows()), a, owner, sharer, email, id), error)
    ensures added <==> error.None? && store.shares != old(store.shares)
  {
    var recipient := SelectUser(store, email);
    if recipient.None? { return Some(RecipientNotFound), false; }
    if owner == recipient.value { return Some(SelfShare), false; }
    if SharedWith(store.Rows(), a, recipient.value) { return None, false; }
    if id in store.shares { return Some(IntegrityError), false; }
    store.shares := store.shares[id := ShareRow(a, recipient.value, sharer)];
    return None, true;
  }

  /** share_artifact */
  method ShareFromConnection(store: Store, c: ConnId, a: ArtifactId, email: string, id: ShareId)
    returns (error: Option<Error>, added: bool)
    requires store.Valid()
    modifies store`shares
    ensures Ran(old(store.Rows()), store.Rows(), ShareArtifact(old(store.Rows()), c, a, email, id), error)
    ensures added <==> error.None? && store.shares != old(store.shares)
  {
    if !OwnedBy(store.Rows(), c, a) { return Some(NotFound), false; }
    if c !in store.conns { return Some(IntegrityError), false; }
    error, added := AddShare(store, a, store.conns[c].userId, c, email, id);
  }

  /** share_artifact_from_dashboard */
  method ShareFromOwner(store: Store, u: UserId, a: ArtifactId, email: string, id: ShareId)
    returns (error: Option<Error>, added: bool)
    requires store.Valid()
    modifies store`shares
    ensures Ran(old(store.Rows()), store.Rows(), ShareFromDashboard(old(store.Rows()), u, a, email, id), error)
    ensures !Acceptance.Theirs(old(store.Rows()), u, a) ==> error == Some(NotFound)
    ensures added <==> error.None? && store.shares != old(store.shares)
  {
    Acceptance.ReachesExactly(store.Rows(), u, a);
    if !OwnedByUser(store.Rows(), u, a) { return Some(NotFound), false; }
    error, added := AddShare(store, a, u, store.artifacts[a].connectionId, email, id);
  }

  /** unshare_artifact */
  method RemoveShare(store: Store, u: UserId, a: ArtifactId, id: ShareId) returns (error: Option<Error>)
    modifies store
    ensures Ran(old(store.Rows()), store.Rows(), Unshare(old(store.Rows()), u, a, id), error)
    ensures !Acceptance.Theirs(old(store.Rows()), u, a) ==> error == Some(NotFound)
    ensures error.None? ==> id !in store.shares
  {
    Acceptance.ReachesExactly(store.Rows(), u, a);
    if !OwnedByUser(store.Rows(), u, a) { return Some(NotFound); }
    if id !in store.shares { return Some(NotFound); }
    if store.shares[id].artifactId != a { return Some(NotFound); }
    store.shares := store.shares - {id};
    return None;
  }
}
