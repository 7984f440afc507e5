/** The routes and tools in front of the handlers: every request, run statement by statement, does to the
    tables what the content transactions and the authorization machine say, and keeps what they promise. */
module RequestServer {
  import opened Basics
  import opened Schema
  import opened Content
  import opened Database
  import opened OAuth
  import opened OAuthRuns
  import opened Health
  import ArtifactTools
  import DiscussionTools
  import Lifetimes
  import OAuthServer
  import OAuthInvariant
  import OAuthGuarantees

  predicate OnArtifacts(q: Request) {
    || q.DoPublish? || q.DoUpdate? || q.DoReassign? || q.DoDeleteVersion? || q.DoPrune? || q.DoDeleteArtifact?
    || q.DoAdminDelete?
  }

  method ServeArtifacts(store: Store, cfg: Config, q: Request) returns (error: Option<Error>)
    requires OnArtifacts(q)
    modifies store
    ensures Ran(old(store.Rows()), store.Rows(), Perform(old(store.Rows()), cfg, q), error)
  {
    match q {
      case DoPublish(c, a, content, format, title, language) =>
        error := ArtifactTools.PublishArtifact(store, cfg, c, content, format, title, language, a);
      case DoUpdate(c, a, content, base, format, title, language) =>
        error := ArtifactTools.UpdateArtifact(store, cfg, c, a, content, base, format, title, language);
      case DoReassign(u, a, target) => error := ArtifactTools.ReassignArtifactConnection(store, cfg, u, a, target);
      case DoDeleteVersion(u, a, v) => error := ArtifactTools.DeleteOneVersion(store, u, a, v);
      case DoPrune(u, a) =>
        var removed;
        error, removed := ArtifactTools.PruneOldVersions(store, u, a);
      case DoDeleteArtifact(u, a) => error := ArtifactTools.DeleteOwnedArtifact(store, u, a);
      case DoAdminDelete(a) => error := ArtifactTools.DeleteAnyArtifact(store, a);
    }
  }

  method ServeDiscussions(store: Store, cfg: Config, q: Request) returns (error: Option<Error>)
    requires store.Valid() && !OnArtifacts(q)
    modifies store
    ensures Ran(old(store.Rows()), store.Rows(), Perform(old(store.Rows()), cfg, q), error)
  {
    var flag;
    match q {
      case DoComment(u, a, id, body, now) =>
        error := DiscussionTools.CommentOnArtifact(store, cfg, u, a, id, body, now);
      case DoReply(c, root, id, body, now) =>
        error := DiscussionTools.ReplyFromConnection(store, cfg, c, root, id, body, now);
      case DoHumanReply(u, root, id, body, now) =>
        error := DiscussionTools.ReplyFromUser(store, cfg, u, root, id, body, now);
      case DoResolve(c, root) => error := DiscussionTools.ResolveFromConnection(store, c, root);
      case DoToggle(u, root) => error, flag := DiscussionTools.ToggleFromDashboard(store, u, root);
      case DoDeleteThread(u, a, root) => error := DiscussionTools.DeleteOwnedThread(store, u, a, root);
      case DoShare(c, a, email, id) => error, flag := DiscussionTools.ShareFromConnection(store, c, a, email, id);
      case DoDashboardShare(u, a, email, id) => error, flag := DiscussionTools.ShareFromOwner(store, u, a, email, id);
      case DoUnshare(u, a, id) => error := DiscussionTools.RemoveShare(store, u, a, id);
    }
  }

  /** Any content request: the tables end as its transaction says, a healthy store stays healthy, and a refused
      request changes nothing. */
  method ServeContent(store: Store, cfg: Config, q: Request) returns (error: Option<Error>)
    requires store.Valid()
    modifies store
    ensures store.Valid()
    ensures Ran(old(store.Rows()), store.Rows(), Perform(old(store.Rows()), cfg, q), error)
    ensures Keeps(old(store.Rows()), store.Rows(), cfg)
    ensures error.Some? ==> store.Rows() == old(store.Rows())
  {
    RequestKeeps(store.Rows(), cfg, q);
    assert SparesCredentials(store.Rows(), Perform(store.Rows(), cfg, q));
    if OnArtifacts(q) { error := ServeArtifacts(store, cfg, q); } else { error := ServeDiscussions(store, cfg, q); }
  }

  // ---- the authorization server ----

  /** A request of one transaction, its drawn values fresh. */
  predicate Serves(w: World, e: Event) {
    match e
    case Register(k) => k !in w.past.registered
    case BeginAuthorize(_, _) => true
    case Approve(_, _, t) => Sha256(t) !in w.past.drawn
    case Deny(_) => true
    case NewPersonalToken(c, _, t, _) => Sha256(t) !in w.past.drawn && c !in w.past.created
    case RemoveConnection(_) => true
    case SweepRows => true
    case UseContent(_, _) => true
    case _ => false
  }

  method ServeConsent(store: Store, ghost w: World, e: Event, now: Time)
    requires store.Valid() && store.Rows() == w.db && now == w.now && Serves(w, e) && IsConsent(e)
    modifies store
    ensures store.Valid() && store.Rows() == Next(w, e).db
  {
    var error;
    match e {
      case Register(k) => error := OAuthServer.Register(store, k, now);
      case BeginAuthorize(k, id) => error := OAuthServer.OpenRequest(store, k, id, now);
      case Approve(id, u, t) => error := OAuthServer.Approve(store, id, u, Sha256(t), now);
      case Deny(id) => error := OAuthServer.Deny(store, id, now);
      case NewPersonalToken(c, u, t, expires) => error := OAuthServer.CreateToken(store, c, u, Sha256(t), expires);
    }
  }

  /** Handler and machine agree: the tables end where the machine's next state has them, so whatever holds of
      the machine's runs holds of the store. */
  method Serve(store: Store, ghost w: World, e: Event, now: Time)
    requires store.Valid() && store.Rows() == w.db && now == w.now && Serves(w, e)
    modifies store
    ensures store.Valid() && store.Rows() == Next(w, e).db
    ensures OAuthInvariant.Inv(w) ==> OAuthInvariant.Inv(Next(w, e))
  {
    if OAuthInvariant.Inv(w) { OAuthGuarantees.NextKeeps(w, e); }
    if IsConsent(e) {
      ServeConsent(store, w, e, now);
      return;
    }
    var error;
    match e {
      case RemoveConnection(c) => error := OAuthServer.RemoveConnection(store, c);
      case SweepRows => OAuthServer.SweepExpiredRows(store, now);
      case UseContent(cfg, q) => error := ServeContent(store, cfg, q);
    }
  }

  /** The revocation endpoint is the machine's two steps with nothing in between. */
  method ServeRevocation(store: Store, ghost w: World, ghost r: RequestId, t: Token, now: Time)
    requires store.Valid() && store.Rows() == w.db && now == w.now && r !in w.pcs
    modifies store
    ensures store.Valid() && store.Rows() == Next(Next(w, BeginRevokeToken(r, t)), FinishRevoke(r)).db
    ensures forall d: ConnId, h, at | Some(d) != TokenConnection(w.db, Sha256(t)) ::
              LoadAccessToken(store.Rows(), h, at) == Some(d) <==> LoadAccessToken(w.db, h, at) == Some(d)
  {
    OAuthServer.RevokeToken(store, Sha256(t), now);
  }

  /** The gate lets in exactly the holders of valid tokens, and nobody through a connection that was ever revoked. */
  method ServeBearer(store: Store, ghost w: World, h: Digest, now: Time) returns (c: Option<ConnId>)
    requires store.Valid() && store.Rows() == w.db && OAuthInvariant.Inv(w)
    ensures c == Authenticate(w.db, h, now)
    ensures forall d: ConnId :: c == Some(d) <==>
              || Lifetimes.OpensAsPersonal(w.db, d, h, now)
              || (Lifetimes.OpensAsAccess(w.db, d, h, now)
                  && forall e: ConnId :: !Lifetimes.OpensAsPersonal(w.db, e, h, now))
    ensures c.Some? ==> c.value in w.past.created && c.value !in w.past.revoked
  {
    c := OAuthServer.AuthenticateBearer(store, h, now);
    forall d | d in w.past.revoked ensures c != Some(d) {
      OAuthGuarantees.RevokedNeverAuthenticates(w, d, h, now);
    }
  }
}
