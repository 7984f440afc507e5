/** What every event of the authorization server keeps. Each clause names the tables and
    histories it depends on, so an event that leaves those alone keeps it at once. */
module OAuthInvariant {
  import opened Basics
  import opened Schema
  import opened OAuth
  import opened OAuthRuns

  type Approvals = map<Digest, Approval>
  type Created = map<ConnId, Identity>
  type Lineages = map<Digest, Lineage>
  type Codes = map<CodeId, CodeRow>
  type Conns = map<ConnId, ConnRow>
  type Pcs = map<RequestId, Pc>
  type Refresh = map<Digest, RefreshRow>

  /** Connection identities never change and are never reused. */
  ghost predicate ConnsKnown(conns: Conns, created: Created, revoked: set<ConnId>) {
    && (forall c <- conns ::
          c in created && created[c] == Identity(conns[c].userId, conns[c].clientId))
    && (forall c <- created :: c in conns || c in revoked)
    && (forall c <- revoked :: c in created)
    && (forall c <- conns :: c in revoked <==> conns[c].revokedAt.Some?)
  }

  /** Every token ever issued, and every code, was drawn. */
  ghost predicate TokensDrawn(drawn: set<Digest>, approvals: Approvals, lineage: Lineages,
                              origin: map<Digest, Digest>) {
    && (forall h <- origin :: h in drawn)
    && (forall h <- lineage :: h in drawn)
    && (forall h <- approvals :: h in drawn)
  }

  ghost predicate ConsentRow(row: CodeRow, approvals: Approvals) {
    && (row.approved <==> row.userId.Some?)
    && (row.approved <==> row.codeHash.Some?)
    && (row.approved ==>
          && row.codeHash.value in approvals
          && approvals[row.codeHash.value] == Approval(row.userId.value, row.clientId))
  }

  /** A code row is approved iff it has a user iff it has a hash, and then that user approved
      that client. The hash column is unique. */
  ghost predicate ConsentOk(codes: Codes, approvals: Approvals) {
    && (forall i <- codes :: ConsentRow(codes[i], approvals))
    && (forall i, j | i in codes && j in codes && codes[i].codeHash.Some? && codes[i].codeHash == codes[j].codeHash ::
          i == j)
  }

  /** `conn` belongs to the user and client that approved `grant`. */
  ghost predicate Authorized(approvals: Approvals, created: Created, grant: Digest, conn: ConnId) {
    && grant in approvals && conn in created
    && created[conn] == Identity(approvals[grant].user, Some(approvals[grant].client))
  }

  ghost predicate ApprovedBy(approvals: Approvals, grant: Digest, u: UserId, k: ClientId) {
    grant in approvals && approvals[grant] == Approval(u, k)
  }

  ghost predicate ParentOk(lineage: Lineages, parent: Option<Digest>, grant: Digest, conn: ConnId) {
    parent.Some? ==>
      && parent.value in lineage
      && lineage[parent.value].grant == grant && lineage[parent.value].conn == conn
  }

  ghost predicate PcOk(pc: Pc, approvals: Approvals, created: Created, lineage: Lineages) {
    match pc
    case CodeLoaded(code, k, subject) => subject.Some? && ApprovedBy(approvals, code, subject.value, k)
    case CodeConsumed(g, u, k) => ApprovedBy(approvals, g, u, k)
    case LockHeld(g, u, k) => ApprovedBy(approvals, g, u, k)
    case NoConnection(g, u, k) => ApprovedBy(approvals, g, u, k)
    case Issuing(g, parent, c, k) =>
      Authorized(approvals, created, g, c) && k == approvals[g].client && ParentOk(lineage, parent, g, c)
    case RefreshLoaded(t) => true
    case Revoking(c) => c in created
  }

  ghost predicate PcsOk(pcs: Pcs, approvals: Approvals, created: Created, lineage: Lineages) {
    forall r <- pcs :: PcOk(pcs[r], approvals, created, lineage)
  }

  /** Every refresh token, stored or long gone, descends from an approval for its connection. */
  ghost predicate LineageOk(lineage: Lineages, approvals: Approvals, created: Created) {
    forall d <- lineage ::
      && Authorized(approvals, created, lineage[d].grant, lineage[d].conn)
      && ParentOk(lineage, lineage[d].parent, lineage[d].grant, lineage[d].conn)
      && lineage[d].generation == Generation(lineage, lineage[d].parent)
  }

  ghost predicate RefreshOk(refresh: Refresh, lineage: Lineages, approvals: Approvals) {
    forall h <- refresh ::
      && h in lineage && lineage[h].conn == refresh[h].connectionId
      && lineage[h].grant in approvals && refresh[h].clientId == approvals[lineage[h].grant].client
  }

  ghost predicate AccessOk(access: map<Digest, AccessRow>, origin: map<Digest, Digest>, approvals: Approvals,
                           created: Created) {
    forall h <- access :: h in origin && Authorized(approvals, created, origin[h], access[h].connectionId)
  }

  ghost predicate HoldsLock(locks: map<LockKey, RequestId>, r: RequestId, u: UserId, k: ClientId) {
    LockKey(u, k) in locks && locks[LockKey(u, k)] == r
  }

  predicate Critical(pc: Pc) { pc.LockHeld? || pc.NoConnection? }

  /** Requests between acquire and release hold their lock, and no lock outlives its request. */
  ghost predicate LocksOk(pcs: Pcs, locks: map<LockKey, RequestId>) {
    && (forall r <- pcs :: Critical(pcs[r]) ==> HoldsLock(locks, r, pcs[r].user, pcs[r].client))
    && (forall l <- locks ::
          && locks[l] in pcs && Critical(pcs[locks[l]])
          && l == LockKey(pcs[locks[l]].user, pcs[locks[l]].client))
  }

  /** At most one active connection per user and client; none while a request is about to create it. */
  ghost predicate OneActive(conns: Conns, pcs: Pcs) {
    && (forall c, d, u, k | ActiveFor(conns, c, u, k) && ActiveFor(conns, d, u, k) :: c == d)
    && (forall r, c | r in pcs && pcs[r].NoConnection? :: !ActiveFor(conns, c, pcs[r].user, pcs[r].client))
  }

  // ---- who may still mint tokens for a grant ----

  /** The unconsumed code, the request that took it over, or the one live refresh token. */
  datatype Holder = ByCode(id: CodeId) | ByRequest(r: RequestId) | ByToken(h: Digest)

  predicate Carries(pc: Pc, g: Digest) {
    match pc
    case CodeConsumed(grant, _, _) => grant == g
    case LockHeld(grant, _, _) => grant == g
    case NoConnection(grant, _, _) => grant == g
    case Issuing(grant, _, _, _) => grant == g
    case _ => false
  }

  predicate Live(refresh: Refresh, h: Digest) {
    h in refresh && refresh[h].revokedAt.None?
  }

  predicate Holds(codes: Codes, pcs: Pcs, refresh: Refresh, lineage: Lineages, x: Holder, g: Digest) {
    match x
    case ByCode(id) => HasCodeHash(codes, id, g)
    case ByRequest(r) => r in pcs && Carries(pcs[r], g)
    case ByToken(h) => Live(refresh, h) && h in lineage && lineage[h].grant == g
  }

  /** The baton: no two holders of one grant. */
  ghost predicate OneHolder(codes: Codes, pcs: Pcs, refresh: Refresh, lineage: Lineages) {
    forall x, y, g | Holds(codes, pcs, refresh, lineage, x, g) && Holds(codes, pcs, refresh, lineage, y, g) :: x == y
  }

  /** A holder that has not minted yet: the code, or a request working for the code itself. */
  predicate Unfunded(codes: Codes, pcs: Pcs, x: Holder, g: Digest) {
    match x
    case ByCode(id) => HasCodeHash(codes, id, g)
    case ByRequest(r) => r in pcs && Carries(pcs[r], g) && (pcs[r].Issuing? ==> pcs[r].parent.None?)
    case ByToken(_) => false
  }

  predicate Root(lineage: Lineages, d: Digest, g: Digest) {
    d in lineage && lineage[d].grant == g && lineage[d].parent.None?
  }

  /** A code that is still to be exchanged, or being exchanged, has funded nothing; otherwise one pair at most. */
  ghost predicate FundedOnce(codes: Codes, pcs: Pcs, lineage: Lineages) {
    && (forall x, g, d | Unfunded(codes, pcs, x, g) :: !Root(lineage, d, g))
    && (forall d, e, g | Root(lineage, d, g) && Root(lineage, e, g) :: d == e)
  }

  predicate Child(lineage: Lineages, d: Digest, p: Digest) {
    d in lineage && lineage[d].parent == Some(p)
  }

  predicate Replacing(pcs: Pcs, r: RequestId, p: Digest) {
    r in pcs && pcs[r].Issuing? && pcs[r].parent == Some(p)
  }

  /** A token has at most one successor; one that has, or is getting, a successor is dead. */
  ghost predicate OneSuccessor(lineage: Lineages, pcs: Pcs, refresh: Refresh) {
    && (forall d, e, p | Child(lineage, d, p) && Child(lineage, e, p) :: d == e)
    && (forall d, p | Child(lineage, d, p) :: !Live(refresh, p))
    && (forall r, p | Replacing(pcs, r, p) :: !Live(refresh, p))
    && (forall r, d, p | Replacing(pcs, r, p) :: !Child(lineage, d, p))
  }

  /** Clients only disappear after thirty unused days. */
  ghost predicate ClientsAge(clients: map<ClientId, ClientRow>, registered: map<ClientId, Time>, now: Time) {
    && (forall k <- clients :: k in registered && clients[k].createdAt == registered[k])
    && (forall k <- registered :: k in clients || registered[k] + UNUSED_CLIENT_TTL <= now)
  }

  ghost predicate ApprovalsKnown(approvals: Approvals, registered: map<ClientId, Time>, users: map<UserId, string>) {
    forall g <- approvals :: approvals[g].client in registered && approvals[g].user in users
  }

  ghost predicate RecordsOk(w: World) {
    && CredentialKeys(w.db)
    && ClientsAge(w.db.clients, w.past.registered, w.now)
    && ApprovalsKnown(w.past.approvals, w.past.registered, w.db.users)
    && ConnsKnown(w.db.conns, w.past.created, w.past.revoked)
    && TokensDrawn(w.past.drawn, w.past.approvals, w.past.lineage, w.past.origin)
    && ConsentOk(w.db.codes, w.past.approvals)
    && PcsOk(w.pcs, w.past.approvals, w.past.created, w.past.lineage)
    && LineageOk(w.past.lineage, w.past.approvals, w.past.created)
    && RefreshOk(w.db.refresh, w.past.lineage, w.past.approvals)
    && AccessOk(w.db.access, w.past.origin, w.past.approvals, w.past.created)
  }

  ghost predicate ConcurrencyOk(w: World) {
    && LocksOk(w.pcs, w.locks)
    && OneActive(w.db.conns, w.pcs)
  }

  ghost predicate BatonOk(w: World) {
    && OneHolder(w.db.codes, w.pcs, w.db.refresh, w.past.lineage)
    && FundedOnce(w.db.codes, w.pcs, w.past.lineage)
    && OneSuccessor(w.past.lineage, w.pcs, w.db.refresh)
  }

  ghost predicate Inv(w: World) {
    RecordsOk(w) && ConcurrencyOk(w) && BatonOk(w)
  }

  lemma StartsOk()
    ensures Inv(START)
  {
  }
}
