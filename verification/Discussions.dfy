/** What the comment requests do to threads, told by the thread and not by the request (comments.py). */
module Discussions {
  import opened Basics
  import opened Schema
  import opened Content
  import opened ContentIntegrity
  import opened CommentThreads

  /** All comments but `m` are as they were. */
  ghost predicate OthersAsTheyWere(before: Db, after: Db, m: CommentId) {
    && after == before.(comments := after.comments)
    && forall n | n != m :: (n in after.comments <==> n in before.comments)
                            && (n in before.comments ==> after.comments[n] == before.comments[n])
  }

  /** A comment opens a thread of its own on its artifact, and deleting that thread takes back exactly it. */
  lemma CommentThenDelete(db: Db, cfg: Config, u: UserId, a: ArtifactId, id: CommentId, body: string, now: Time,
                          owner: UserId)
    requires CommentsRefer(db.comments, db.artifacts, db.conns, db.users) && OwnedByUser(db, owner, a)
    requires CreateComment(db, cfg, u, a, id, body, now).Commit?
    ensures var d := CreateComment(db, cfg, u, a, id, body, now).db;
            && OthersAsTheyWere(db, d, id) && IsRootOn(d.comments, a, id) && Home(d.comments, id) == id
            && DeleteThread(d, owner, a, id) == Commit(db)
  {
    var d := CreateComment(db, cfg, u, a, id, body, now).db;
    forall m | m in db.comments ensures db.comments[m].parentId != Some(id) {}
    assert (map m | m in d.comments && d.comments[m].parentId != Some(id) && m != id :: d.comments[m]) == db.comments;
  }

  /** A reply joins the thread it answers, on that thread's artifact, and cannot be answered itself. */
  lemma ReplyJoinsThread(db: Db, cfg: Config, c: ConnId, root: CommentId, id: CommentId, body: string, now: Time,
                         next: CommentId, text: string, later: Time)
    requires ReplyToComment(db, cfg, c, root, id, body, now).Commit?
    ensures var d := ReplyToComment(db, cfg, c, root, id, body, now).db;
            && OthersAsTheyWere(db, d, id) && Home(d.comments, id) == root == Home(d.comments, root)
            && d.comments[id].artifactId == db.comments[root].artifactId
            && ReplyToComment(d, cfg, c, id, next, text, later).Refuse?
  {
  }

  lemma HumanReplyJoinsThread(db: Db, cfg: Config, u: UserId, root: CommentId, id: CommentId, body: string, now: Time,
                              next: CommentId, text: string, later: Time)
    requires ReplyAsHuman(db, cfg, u, root, id, body, now).Commit?
    ensures var d := ReplyAsHuman(db, cfg, u, root, id, body, now).db;
            && OthersAsTheyWere(db, d, id) && Home(d.comments, id) == root == Home(d.comments, root)
            && d.comments[id].artifactId == db.comments[root].artifactId
            && ReplyAsHuman(d, cfg, u, id, next, text, later).Refuse?
  {
  }

  /** Resolving sets one column of one row, and resolving again changes nothing. */
  lemma ResolveOnce(db: Db, c: ConnId, root: CommentId)
    requires ResolveThread(db, c, root).Commit?
    ensures var d := ResolveThread(db, c, root).db;
            && OthersAsTheyWere(db, d, root) && d.comments[root] == db.comments[root].(resolved := true)
            && ResolveThread(d, c, root) == Commit(d)
  {
    var d := ResolveThread(db, c, root).db;
    assert d.comments[root := d.comments[root].(resolved := true)] == d.comments;
  }

  /** Toggling twice restores the database. */
  lemma ToggleTwice(db: Db, u: UserId, root: CommentId)
    requires ToggleResolved(db, u, root).Commit?
    ensures var d := ToggleResolved(db, u, root).db;
            && OthersAsTheyWere(db, d, root) && d.comments[root].resolved != db.comments[root].resolved
            && ToggleResolved(d, u, root) == Commit(db)
  {
    var d := ToggleResolved(db, u, root).db;
    AccessStays(db, d, u, db.comments[root].artifactId);
    assert d.comments[root := db.comments[root]] == db.comments;
  }

  lemma AccessStays(db: Db, d: Db, u: UserId, a: ArtifactId)
    requires d == db.(comments := d.comments)
    ensures Accessible(d, u, a) <==> Accessible(db, u, a)
  {
  }

  /** Deleting a thread removes exactly the comments whose home is its root. */
  lemma DeleteThreadExactly(db: Db, u: UserId, a: ArtifactId, root: CommentId, m: CommentId)
    requires ThreadsOk(db.comments) && DeleteThread(db, u, a, root).Commit?
    ensures var d := DeleteThread(db, u, a, root).db;
            && d == db.(comments := d.comments)
            && (m in d.comments <==> m in db.comments && Home(db.comments, m) != root)
            && (m in d.comments ==> d.comments[m] == db.comments[m])
  {
  }
}
