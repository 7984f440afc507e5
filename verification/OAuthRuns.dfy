/** The authorization server as a machine of interleaved requests.

    Every request in flight has a program counter; between any two of its steps any other
    event may happen: time passes, other requests advance, connections are revoked or
    deleted, the sweep runs, the content tables change, a request is abandoned.
    `History` never forgets; the machine never consults it except to draw fresh values. */
module OAuthRuns {
  import opened Basics
  import opened Schema
  import opened Content
  import opened OAuth

  type RequestId = nat

  /** What a request still has to do. `grant` is the hash of the authorization code a family
      of tokens descends from, `parent` the refresh token the next pair replaces. */
  datatype Pc =
    | CodeLoaded(code: Digest, client: ClientId, subject: Option<UserId>)
    | CodeConsumed(grant: Digest, user: UserId, client: ClientId)
    | LockHeld(grant: Digest, user: UserId, client: ClientId)
    | NoConnection(grant: Digest, user: UserId, client: ClientId)
    | Issuing(grant: Digest, parent: Option<Digest>, conn: ConnId, client: ClientId)
    | RefreshLoaded(token: Digest)
    | Revoking(conn: ConnId)

  datatype LockKey = LockKey(user: UserId, client: ClientId)

  datatype Approval = Approval(user: UserId, client: ClientId)
  datatype Identity = Identity(user: UserId, client: Option<ClientId>)

  /** How a refresh token came to be: `generation` 0 is issued for the code itself. */
  datatype Lineage = Lineage(grant: Digest, parent: Option<Digest>, conn: ConnId, generation: nat)

  datatype History = History(
    drawn: set<Digest>,                 // every token ever generated
    registered: map<ClientId, Time>,    // every client ever registered
    approvals: map<Digest, Approval>,   // code hash -> who approved which client
    created: map<ConnId, Identity>,     // every connection ever created
    revoked: set<ConnId>,               // every connection ever revoked
    lineage: map<Digest, Lineage>,      // every refresh token ever issued
    origin: map<Digest, Digest>)        // every access token ever issued -> its grant

  datatype World = World(db: Db, now: Time, pcs: map<RequestId, Pc>, locks: map<LockKey, RequestId>, past: History)

  const START := World(EMPTY, 0, map[], map[],
    History({}, map[], map[], map[], {}, map[], map[]))

  datatype Event =
    | Tick(later: Time)
    | AddUser(u: UserId, email: string)
    | Register(k: ClientId)
    | BeginAuthorize(k: ClientId, code: CodeId)
    | Approve(code: CodeId, u: UserId, t: Token)
    | Deny(code: CodeId)
    | NewPersonalToken(c: ConnId, u: UserId, t: Token, expires: Time)
    | BeginExchange(r: RequestId, t: Token, k: ClientId)
    | Consume(r: RequestId)
    | AcquireLock(r: RequestId)
    | SelectConnection(r: RequestId)
    | CreateConnection(r: RequestId, c: ConnId)
    | Issue(r: RequestId, access: Token, refresh: Token)
    | BeginRefresh(r: RequestId, t: Token, k: ClientId)
    | Rotate(r: RequestId)
    | BeginRevokeToken(r: RequestId, t: Token)
    | BeginRevokeConnection(r: RequestId, c: ConnId)
    | FinishRevoke(r: RequestId)
    | RemoveConnection(c: ConnId)
    | SweepRows
    | Abandon(r: RequestId)
    | UseContent(cfg: Config, q: Content.Request)

  /** Registration, consent and personal tokens: done in one step. */
  predicate IsConsent(e: Event) {
    || e.Tick? || e.AddUser? || e.Register? || e.BeginAuthorize? || e.Approve? || e.Deny? || e.NewPersonalToken?
  }

  /** The steps of a code exchange. */
  predicate IsExchange(e: Event) {
    e.BeginExchange? || e.Consume? || e.AcquireLock? || e.SelectConnection? || e.CreateConnection? || e.Issue?
  }

  /** The request ends, one way or the other, and gives its lock back. */
  function Finish(w: World, r: RequestId): World {
    w.(pcs := w.pcs - {r}, locks := map l | l in w.locks && w.locks[l] != r :: w.locks[l])
  }

  function Advance(w: World, r: RequestId, pc: Pc): World {
    w.(pcs := w.pcs[r := pc])
  }

  /** Proceed with the new database if the transaction commits, end the request otherwise. */
  function Continue(w: World, r: RequestId, tx: Tx, pc: Pc): World {
    if tx.Commit? then Advance(w.(db := tx.db), r, pc) else Finish(w, r)
  }

  function Starting(w: World, r: RequestId, pc: Pc): World {
    if r in w.pcs then w else Advance(w, r, pc)
  }

  // ---- the steps ----

  function StepRegister(w: World, k: ClientId): World {
    var tx := RegisterClient(w.db, k, w.now);
    if k in w.past.registered || tx.Refuse? then w
    else w.(db := tx.db, past := w.past.(registered := w.past.registered[k := w.now]))
  }

  function StepApprove(w: World, id: CodeId, u: UserId, t: Token): World {
    var code := Sha256(t);
    var tx := ApproveConsent(w.db, id, u, code, w.now);
    if code in w.past.drawn || tx.Refuse? then w
    else w.(db := tx.db, past := w.past.(
      drawn := w.past.drawn + {code},
      approvals := w.past.approvals[code := Approval(u, w.db.codes[id].clientId)]))
  }

  function StepPersonalToken(w: World, c: ConnId, u: UserId, t: Token, expires: Time): World {
    var h := Sha256(t);
    var tx := CreatePersonalToken(w.db, c, u, h, expires);
    if h in w.past.drawn || c in w.past.created || tx.Refuse? then w
    else w.(db := tx.db, past := w.past.(
      drawn := w.past.drawn + {h}, created := w.past.created[c := Identity(u, None)]))
  }

  ghost function StepBeginExchange(w: World, r: RequestId, h: Digest, k: ClientId): World {
    var row := LoadCode(w.db, k, h, w.now);
    if row.None? then w else Starting(w, r, CodeLoaded(h, k, row.value.userId))
  }

  ghost function StepConsume(w: World, r: RequestId, pc: Pc): World
    requires pc.CodeLoaded?
  {
    // a code without a user is refused before the database is touched
    if pc.subject.None? then Finish(w, r)
    else Continue(w, r, ConsumeCode(w.db, pc.code), CodeConsumed(pc.code, pc.subject.value, pc.client))
  }

  function StepAcquireLock(w: World, r: RequestId, pc: Pc): World
    requires pc.CodeConsumed?
  {
    var key := LockKey(pc.user, pc.client);
    if key in w.locks then w
    else Advance(w.(locks := w.locks[key := r]), r, LockHeld(pc.grant, pc.user, pc.client))
  }

  function ReleaseAnd(w: World, r: RequestId, pc: Pc): World {
    Advance(Finish(w, r), r, pc)
  }

  ghost function StepSelectConnection(w: World, r: RequestId, pc: Pc): World
    requires pc.LockHeld?
  {
    match FindActive(w.db, pc.user, pc.client)
    case NoRow => Advance(w, r, NoConnection(pc.grant, pc.user, pc.client))
    case OneRow(c) => ReleaseAnd(w, r, Issuing(pc.grant, None, c, pc.client))
    case MultipleRows => Finish(w, r)
  }

  function StepCreateConnection(w: World, r: RequestId, pc: Pc, c: ConnId): World
    requires pc.NoConnection?
  {
    var tx := InsertConnection(w.db, c, pc.user, pc.client);
    if c in w.past.created then w
    else if tx.Refuse? then Finish(w, r)
    else ReleaseAnd(
      w.(db := tx.db, past := w.past.(created := w.past.created[c := Identity(pc.user, Some(pc.client))])),
      r, Issuing(pc.grant, None, c, pc.client))
  }

  function Generation(lineage: map<Digest, Lineage>, parent: Option<Digest>): nat {
    if parent.Some? && parent.value in lineage then lineage[parent.value].generation + 1 else 0
  }

  function StepIssue(w: World, r: RequestId, pc: Pc, a: Token, f: Token): World
    requires pc.Issuing?
  {
    var access := Sha256(a);
    var refresh := Sha256(f);
    var tx := IssueTokens(w.db, pc.conn, pc.client, access, refresh, w.now);
    if access in w.past.drawn || refresh in w.past.drawn || access == refresh then w
    else if tx.Refuse? then Finish(w, r)
    else Finish(w, r).(db := tx.db, past := w.past.(
      drawn := w.past.drawn + {access, refresh},
      lineage := w.past.lineage[refresh :=
        Lineage(pc.grant, pc.parent, pc.conn, Generation(w.past.lineage, pc.parent))],
      origin := w.past.origin[access := pc.grant]))
  }

  function StepBeginRefresh(w: World, r: RequestId, h: Digest, k: ClientId): World {
    if LoadsRefresh(w.db, k, h, w.now) then Starting(w, r, RefreshLoaded(h)) else w
  }

  function StepRotate(w: World, r: RequestId, pc: Pc): World
    requires pc.RefreshLoaded?
  {
    // every stored refresh token was issued, so the second disjunct never decides (TokensKnown)
    if pc.token !in w.db.refresh || pc.token !in w.past.lineage then Finish(w, r)
    else if IsRotatedAway(w.db, pc.token) then Advance(w, r, Revoking(w.db.refresh[pc.token].connectionId))
    else Continue(w, r, RotateAway(w.db, pc.token, w.now),
      Issuing(w.past.lineage[pc.token].grant, Some(pc.token),
              w.db.refresh[pc.token].connectionId, w.db.refresh[pc.token].clientId))
  }

  function StepBeginRevokeToken(w: World, r: RequestId, h: Digest): World {
    var conn := TokenConnection(w.db, h);
    if conn.None? then w else Starting(w, r, Revoking(conn.value))
  }

  function StepFinishRevoke(w: World, r: RequestId, pc: Pc): World
    requires pc.Revoking?
  {
    var known := if pc.conn in w.db.conns then {pc.conn} else {};
    Finish(w, r).(
      db := RevokeConnection(w.db, pc.conn, w.now),
      past := w.past.(revoked := w.past.revoked + known))
  }

  /** One event. An event whose request is not at that step, or whose drawn value is not
      fresh, changes nothing. */
  ghost function Next(w: World, e: Event): World {
    match e
    case Tick(later) => if later >= w.now then w.(now := later) else w
    case AddUser(u, email) =>
      if u in w.db.users || (exists v :: HasEmail(w.db.users, v, email)) then w
      else w.(db := w.db.(users := w.db.users[u := email]))
    case Register(k) => StepRegister(w, k)
    case BeginAuthorize(k, id) => w.(db := After(w.db, Authorize(w.db, k, id, w.now)))
    case Approve(id, u, t) => StepApprove(w, id, u, t)
    case Deny(id) => w.(db := After(w.db, DenyConsent(w.db, id, w.now)))
    case NewPersonalToken(c, u, t, expires) => StepPersonalToken(w, c, u, t, expires)
    case BeginExchange(r, t, k) => StepBeginExchange(w, r, Sha256(t), k)
    case Consume(r) =>
      if r in w.pcs && w.pcs[r].CodeLoaded? then StepConsume(w, r, w.pcs[r]) else w
    case AcquireLock(r) =>
      if r in w.pcs && w.pcs[r].CodeConsumed? then StepAcquireLock(w, r, w.pcs[r]) else w
    case SelectConnection(r) =>
      if r in w.pcs && w.pcs[r].LockHeld? then StepSelectConnection(w, r, w.pcs[r]) else w
    case CreateConnection(r, c) =>
      if r in w.pcs && w.pcs[r].NoConnection? then StepCreateConnection(w, r, w.pcs[r], c) else w
    case Issue(r, a, f) =>
      if r in w.pcs && w.pcs[r].Issuing? then StepIssue(w, r, w.pcs[r], a, f) else w
    case BeginRefresh(r, t, k) => StepBeginRefresh(w, r, Sha256(t), k)
    case Rotate(r) =>
      if r in w.pcs && w.pcs[r].RefreshLoaded? then StepRotate(w, r, w.pcs[r]) else w
    case BeginRevokeToken(r, t) => StepBeginRevokeToken(w, r, Sha256(t))
    case BeginRevokeConnection(r, c) => if c in w.db.conns then Starting(w, r, Revoking(c)) else w
    case FinishRevoke(r) =>
      if r in w.pcs && w.pcs[r].Revoking? then StepFinishRevoke(w, r, w.pcs[r]) else w
    case RemoveConnection(c) => w.(db := After(w.db, DeleteConnection(w.db, c)))
    case SweepRows => w.(db := Sweep(w.db, w.now))
    case Abandon(r) => Finish(w, r)
    case UseContent(cfg, q) => w.(db := After(w.db, Perform(w.db, cfg, q)))
  }

  ghost function Run(w: World, events: seq<Event>): World
    decreases |events|
  {
    if events == [] then w else Run(Next(w, events[0]), events[1..])
  }
}
