/** The database as the server holds it: one table per field, changed in place by every request. */
module Database {
  import opened Basics
  import opened Schema
  import opened Content
  import opened Totals

  ghost predicate UniqueEmails(users: map<UserId, string>) {
    forall u, v | u in users && v in users && u != v :: users[u] != users[v]
  }

  ghost predicate UniqueCodeHashes(codes: map<CodeId, CodeRow>) {
    forall i, j | i in codes && j in codes && i != j && codes[i].codeHash.Some? ::
      codes[i].codeHash != codes[j].codeHash
  }

  ghost predicate UniqueTokenHashes(conns: map<ConnId, ConnRow>) {
    forall c, d | c in conns && d in conns && c != d && conns[c].tokenHash.Some? ::
      conns[c].tokenHash != conns[d].tokenHash
  }

  class Store {
    var users: map<UserId, string>
    var clients: map<ClientId, ClientRow>
    var codes: map<CodeId, CodeRow>
    var conns: map<ConnId, ConnRow>
    var access: map<Digest, AccessRow>
    var refresh: map<Digest, RefreshRow>
    var artifacts: map<ArtifactId, ArtifactRow>
    var versions: map<VersionKey, VersionRow>
    var comments: map<CommentId, CommentRow>
    var shares: map<ShareId, ShareRow>

    /** The UNIQUE columns that are not the key of their table. */
    ghost predicate Valid()
      reads this
    {
      UniqueEmails(users) && UniqueCodeHashes(codes) && UniqueTokenHashes(conns)
    }

    function Rows(): Db
      reads this
    {
      Db(users, clients, codes, conns, access, refresh, artifacts, versions, comments, shares)
    }

    constructor ()
      ensures Valid() && Rows() == EMPTY
    {
      users, clients, codes, conns, access, refresh := map[], map[], map[], map[], map[], map[];
      artifacts, versions, comments, shares := map[], map[], map[], map[];
    }
  }

  /** A request that read `before` did exactly what `tx` says: its writes and its error, or neither. */
  ghost predicate Ran(before: Db, after: Db, tx: Tx, error: Option<Error>) {
    && after == Content.After(before, tx)
    && error == if tx.Refuse? then Some(tx.error) else None
  }

  /** `SELECT coalesce(SUM(...), 0)`: the selected rows, in whatever order the database visits them. */
  method SelectSum<K(!new)>(rows: map<K, nat>) returns (total: nat)
    ensures total == Total(rows)
  {
    total := 0;
    var left := rows;
    while left != map[]
      invariant total + Total(left) == Total(rows)
      decreases |left|
    {
      var k :| k in left;
      TotalRemove(left, k);
      assert (left - {k}).Keys == left.Keys - {k};
      total := total + left[k];
      left := left - {k};
    }
  }

  /** `SELECT ... WHERE email = ...` and `scalar_one_or_none()`. */
  method SelectUser(store: Store, email: string) returns (found: Option<UserId>)
    requires store.Valid()
    ensures found == UserByEmail(store.users, email)
  {
    if exists u <- store.users :: store.users[u] == email {
      var u :| u in store.users && store.users[u] == email;
      assert HasEmail(store.users, u, email);
      return Some(u);
    }
    return None;
  }
}
