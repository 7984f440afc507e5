/** What sharing and unsharing an artifact grant and take away (shares.py, comments.get_accessible_artifact). */
module Sharing {
  import opened Basics
  import opened Schema
  import opened Content
  import opened ContentIntegrity
  import opened Acceptance

  /** A share that went through lets its recipient in, and changes nothing for anyone else. */
  lemma ShareGrantsAccess(db: Db, c: ConnId, a: ArtifactId, email: string, id: ShareId, u: UserId)
    requires ShareArtifact(db, c, a, email, id).Commit?
    ensures var after := ShareArtifact(db, c, a, email, id).db;
            Reaches(after, u, a) <==> Reaches(db, u, a) || UserByEmail(db.users, email) == Some(u)
  {
    ReachesExactly(db, u, a);
    ReachesExactly(ShareArtifact(db, c, a, email, id).db, u, a);
    var after := ShareArtifact(db, c, a, email, id).db;
    var recipient := UserByEmail(db.users, email).value;
    if SharedWith(db, a, recipient) {
      assert after == db;
    } else {
      assert after.shares[id] == ShareRow(a, recipient, c);
      if s :| s in db.shares && db.shares[s].artifactId == a && db.shares[s].sharedWith == u {
        assert after.shares[s] == db.shares[s];
      }
    }
  }

  /** Sharing with the same recipient again adds no row. */
  lemma SharingTwiceAddsNothing(db: Db, c: ConnId, a: ArtifactId, email: string, first: ShareId, second: ShareId)
    requires ShareArtifact(db, c, a, email, first).Commit?
    ensures var after := ShareArtifact(db, c, a, email, first).db;
            ShareArtifact(after, c, a, email, second) == Commit(after)
  {
    var after := ShareArtifact(db, c, a, email, first).db;
    var recipient := UserByEmail(db.users, email).value;
    assert UserByEmail(after.users, email) == UserByEmail(db.users, email);
    if !SharedWith(db, a, recipient) { assert after.shares[first].sharedWith == recipient; }
  }

  /** Unsharing undoes a share that added a row, exactly. */
  lemma UnshareUndoesShare(db: Db, c: ConnId, a: ArtifactId, email: string, id: ShareId, owner: UserId)
    requires ShareArtifact(db, c, a, email, id).Commit? && OwnedByUser(db, owner, a)
    requires UserByEmail(db.users, email).Some? && !SharedWith(db, a, UserByEmail(db.users, email).value)
    ensures Unshare(ShareArtifact(db, c, a, email, id).db, owner, a, id) == Commit(db)
  {
    var after := ShareArtifact(db, c, a, email, id).db;
    assert after.shares - {id} == db.shares;
  }

  /** Unsharing shuts out exactly the recipient of that share, unless the artifact is theirs anyway. */
  lemma UnshareRevokesAccess(db: Db, owner: UserId, a: ArtifactId, id: ShareId, u: UserId)
    requires SharesUnique(db.shares) && Unshare(db, owner, a, id).Commit?
    ensures var after := Unshare(db, owner, a, id).db;
            Reaches(after, u, a) <==> if u == db.shares[id].sharedWith then Theirs(db, u, a) else Reaches(db, u, a)
  {
    ReachesExactly(db, u, a);
    ReachesExactly(Unshare(db, owner, a, id).db, u, a);
    var after := Unshare(db, owner, a, id).db;
    if s :| s in db.shares && db.shares[s].artifactId == a && db.shares[s].sharedWith == u && s != id {
      assert after.shares[s] == db.shares[s];
    }
  }
}
