/** The tables of models.py, one map per table, and the foreign keys between them.

    Primary keys and bearer tokens are drawn at random (uuid4, token_urlsafe); they are
    modelled as natural numbers whose freshness the drawing step demands. `hash_token` is a
    datatype constructor, hence injective. A UNIQUE NOT NULL column that every query
    uses as its key (`token_hash` of the two OAuth token tables, `(artifact_id, version)`
    of the version table) is the key of its map. */
module Schema {
  import opened Basics

  type UserId = nat
  type ClientId = nat
  type ConnId = nat
  type CodeId = nat
  type ArtifactId = nat
  type CommentId = nat
  type ShareId = nat
  type Token = nat

  datatype Digest = Sha256(token: Token)

  datatype ClientRow = ClientRow(createdAt: Time)

  /** A pending authorization request and, once approved, the single-use code. */
  datatype CodeRow = CodeRow(
    clientId: ClientId, userId: Option<UserId>, codeHash: Option<Digest>, approved: bool, expiresAt: Time)

  /** A personal token (`tokenHash` set) or an OAuth-authorized client (`clientId` set). */
  datatype ConnRow = ConnRow(
    userId: UserId, clientId: Option<ClientId>, tokenHash: Option<Digest>,
    expiresAt: Option<Time>, revokedAt: Option<Time>)

  datatype AccessRow = AccessRow(connectionId: ConnId, expiresAt: Time)

  datatype RefreshRow = RefreshRow(
    connectionId: ConnId, clientId: ClientId, revokedAt: Option<Time>, expiresAt: Time)

  datatype Format = Html | Markdown | Code | Csv | React

  datatype ArtifactRow = ArtifactRow(
    connectionId: ConnId, title: Option<string>, format: Format, language: Option<string>,
    content: string, version: int, byteSize: nat)

  datatype VersionKey = VersionKey(artifact: ArtifactId, version: int)

  datatype VersionRow = VersionRow(
    title: Option<string>, format: Format, language: Option<string>, content: string, byteSize: nat)

  datatype Author = ByUser(user: UserId) | ByConnection(conn: ConnId)

  datatype CommentRow = CommentRow(
    artifactId: ArtifactId, parentId: Option<CommentId>, author: Author, body: string,
    resolved: bool, createdAt: Time)

  datatype ShareRow = ShareRow(artifactId: ArtifactId, sharedWith: UserId, sharedBy: ConnId)

  datatype Db = Db(
    users: map<UserId, string>,
    clients: map<ClientId, ClientRow>,
    codes: map<CodeId, CodeRow>,
    conns: map<ConnId, ConnRow>,
    access: map<Digest, AccessRow>,
    refresh: map<Digest, RefreshRow>,
    artifacts: map<ArtifactId, ArtifactRow>,
    versions: map<VersionKey, VersionRow>,
    comments: map<CommentId, CommentRow>,
    shares: map<ShareId, ShareRow>)

  const EMPTY := Db(map[], map[], map[], map[], map[], map[], map[], map[], map[], map[])

  // ---- foreign keys (models.py), one predicate per referencing table ----

  ghost predicate CodesRefer(codes: map<CodeId, CodeRow>, clients: map<ClientId, ClientRow>,
                             users: map<UserId, string>) {
    forall i <- codes ::
      codes[i].clientId in clients && (codes[i].userId.Some? ==> codes[i].userId.value in users)
  }

  ghost predicate ConnsRefer(conns: map<ConnId, ConnRow>, clients: map<ClientId, ClientRow>,
                             users: map<UserId, string>) {
    forall c <- conns ::
      conns[c].userId in users && (conns[c].clientId.Some? ==> conns[c].clientId.value in clients)
  }

  ghost predicate AccessRefers(access: map<Digest, AccessRow>, conns: map<ConnId, ConnRow>) {
    forall h <- access :: access[h].connectionId in conns
  }

  ghost predicate RefreshRefers(refresh: map<Digest, RefreshRow>, conns: map<ConnId, ConnRow>,
                                clients: map<ClientId, ClientRow>) {
    forall h <- refresh :: refresh[h].connectionId in conns && refresh[h].clientId in clients
  }

  ghost predicate ArtifactsRefer(artifacts: map<ArtifactId, ArtifactRow>, conns: map<ConnId, ConnRow>) {
    forall a <- artifacts :: artifacts[a].connectionId in conns
  }

  ghost predicate VersionsRefer(versions: map<VersionKey, VersionRow>, artifacts: map<ArtifactId, ArtifactRow>) {
    forall k <- versions :: k.artifact in artifacts
  }

  predicate AuthorExists(author: Author, conns: map<ConnId, ConnRow>, users: map<UserId, string>) {
    match author
    case ByUser(u) => u in users
    case ByConnection(c) => c in conns
  }

  ghost predicate CommentsRefer(comments: map<CommentId, CommentRow>, artifacts: map<ArtifactId, ArtifactRow>,
                                conns: map<ConnId, ConnRow>, users: map<UserId, string>) {
    forall m <- comments ::
      && comments[m].artifactId in artifacts
      && (comments[m].parentId.Some? ==> comments[m].parentId.value in comments)
      && AuthorExists(comments[m].author, conns, users)
  }

  ghost predicate SharesRefer(shares: map<ShareId, ShareRow>, artifacts: map<ArtifactId, ArtifactRow>,
                              conns: map<ConnId, ConnRow>, users: map<UserId, string>) {
    forall s <- shares ::
      shares[s].artifactId in artifacts && shares[s].sharedWith in users && shares[s].sharedBy in conns
  }

  /** The foreign keys of the credential tables. */
  ghost predicate CredentialKeys(db: Db) {
    && CodesRefer(db.codes, db.clients, db.users) && ConnsRefer(db.conns, db.clients, db.users)
    && AccessRefers(db.access, db.conns) && RefreshRefers(db.refresh, db.conns, db.clients)
  }

  /** The foreign keys of the content tables. */
  ghost predicate ContentKeys(db: Db) {
    && ArtifactsRefer(db.artifacts, db.conns) && VersionsRefer(db.versions, db.artifacts)
    && CommentsRefer(db.comments, db.artifacts, db.conns, db.users)
    && SharesRefer(db.shares, db.artifacts, db.conns, db.users)
  }

  /** Every foreign key of the modelled tables is satisfied. */
  ghost predicate ForeignKeys(db: Db) {
    CredentialKeys(db) && ContentKeys(db)
  }
}
