/** What the authorization server promises over whole runs. */
module OAuthGuarantees {
  import opened Basics
  import opened Schema
  import opened Content
  import opened OAuth
  import opened OAuthRuns
  import opened OAuthInvariant
  import opened OAuthSteps

  lemma ConsentNextKeeps(w: World, e: Event)
    requires Inv(w) && IsConsent(e)
    ensures Inv(Next(w, e))
  {
    match e
    case Tick(later) => if later >= w.now { TickKeeps(w, later); }
    case AddUser(u, email) => if u !in w.db.users { AddUserKeeps(w, u, email); }
    case Register(k) => RegisterKeeps(w, k);
    case BeginAuthorize(k, id) => AuthorizeKeeps(w, k, id);
    case Approve(id, u, t) => ApproveKeeps(w, id, u, t);
    case Deny(id) => DenyKeeps(w, id);
    case NewPersonalToken(c, u, t, expires) => PersonalTokenKeeps(w, c, u, t, expires);
  }

  lemma ExchangeNextKeeps(w: World, e: Event)
    requires Inv(w) && IsExchange(e)
    ensures Inv(Next(w, e))
  {
    match e
    case BeginExchange(r, t, k) => BeginExchangeKeeps(w, r, Sha256(t), k);
    case Consume(r) => if r in w.pcs && w.pcs[r].CodeLoaded? { ConsumeKeeps(w, r); }
    case AcquireLock(r) => if r in w.pcs && w.pcs[r].CodeConsumed? { AcquireLockKeeps(w, r); }
    case SelectConnection(r) => if r in w.pcs && w.pcs[r].LockHeld? { SelectConnectionKeeps(w, r); }
    case CreateConnection(r, c) => if r in w.pcs && w.pcs[r].NoConnection? { CreateConnectionKeeps(w, r, c); }
    case Issue(r, a, f) => if r in w.pcs && w.pcs[r].Issuing? { IssueKeeps(w, r, a, f); }
  }

  lemma OtherNextKeeps(w: World, e: Event)
    requires Inv(w) && !IsConsent(e) && !IsExchange(e)
    ensures Inv(Next(w, e))
  {
    match e
    case BeginRefresh(r, t, k) => BeginRefreshKeeps(w, r, Sha256(t), k);
    case Rotate(r) => if r in w.pcs && w.pcs[r].RefreshLoaded? { RotateKeeps(w, r); }
    case BeginRevokeToken(r, t) => BeginRevokeTokenKeeps(w, r, Sha256(t));
    case BeginRevokeConnection(r, c) =>
      if c in w.db.conns && r !in w.pcs { GrantlessKeeps(w, r, Revoking(c)); }
    case FinishRevoke(r) => if r in w.pcs && w.pcs[r].Revoking? { RevokeKeeps(w, r); }
    case RemoveConnection(c) => RemoveConnectionKeeps(w, c);
    case SweepRows => SweepKeeps(w);
    case Abandon(r) => FinishKeeps(w, r);
    case UseContent(cfg, q) => ContentKeeps(w, cfg, q);
  }

  /** Every event, from any state the invariant allows, keeps the invariant. */
  lemma NextKeeps(w: World, e: Event)
    requires Inv(w)
    ensures Inv(Next(w, e))
  {
    if IsConsent(e) {
      ConsentNextKeeps(w, e);
    } else if IsExchange(e) {
      ExchangeNextKeeps(w, e);
    } else {
      OtherNextKeeps(w, e);
    }
  }

  lemma ContentKeeps(w: World, cfg: Config, q: Content.Request)
    requires Inv(w)
    ensures Inv(w.(db := After(w.db, Perform(w.db, cfg, q))))
  {
    assert SparesCredentials(w.db, Perform(w.db, cfg, q));
  }

  lemma {:induction false} RunKeeps(w: World, events: seq<Event>)
    requires Inv(w)
    ensures Inv(Run(w, events))
    decreases |events|
  {
    if events != [] {
      NextKeeps(w, events[0]);
      RunKeeps(Next(w, events[0]), events[1..]);
    }
  }

  /** Every state any interleaving can reach satisfies the invariant. */
  lemma ReachableInv(events: seq<Event>)
    ensures Inv(Run(START, events))
  {
    StartsOk();
    RunKeeps(START, events);
  }

  // ---- revocation is final ----

  lemma RevokedGrows(w: World, e: Event)
    ensures w.past.revoked <= Next(w, e).past.revoked
  {
  }

  lemma {:induction false} RunRevokedGrows(w: World, events: seq<Event>)
    ensures w.past.revoked <= Run(w, events).past.revoked
    decreases |events|
  {
    if events != [] {
      RevokedGrows(w, events[0]);
      RunRevokedGrows(Next(w, events[0]), events[1..]);
    }
  }

  /** No bearer token authenticates as a connection that was ever revoked, deleted or not. */
  lemma RevokedNeverAuthenticates(w: World, c: ConnId, h: Digest, at: Time)
    requires Inv(w) && c in w.past.revoked
    ensures Authenticate(w.db, h, at) != Some(c)
  {
  }

  /** Once revoked, a connection is never authenticated again, whatever happens next: tokens
      issued later by requests already in flight, deletion of the connection, any clock. */
  lemma RevocationIsFinal(w: World, c: ConnId, events: seq<Event>, h: Digest, at: Time)
    requires Inv(w) && c in w.past.revoked
    ensures Authenticate(Run(w, events).db, h, at) != Some(c)
  {
    RunKeeps(w, events);
    RunRevokedGrows(w, events);
    RevokedNeverAuthenticates(Run(w, events), c, h, at);
  }

  /** Completing a revocation makes it count, even when the connection is already gone. */
  lemma FinishingRevokes(w: World, r: RequestId)
    requires Inv(w) && r in w.pcs && w.pcs[r].Revoking?
    ensures w.pcs[r].conn in Next(w, FinishRevoke(r)).past.revoked
  {
    assert PcOk(w.pcs[r], w.past.approvals, w.past.created, w.past.lineage);
  }

  // ---- replay of a rotated-away refresh token ----

  /** A token that was replaced, or is being replaced, is recognised as long as its row is there. */
  lemma ReplacedIsRotatedAway(w: World, p: Digest)
    requires Inv(w) && p in w.db.refresh
    requires (exists d :: Child(w.past.lineage, d, p)) || (exists q :: Replacing(w.pcs, q, p))
    ensures IsRotatedAway(w.db, p)
  {
    assert !Live(w.db.refresh, p);
  }

  /** Replaying it kills the connection: when the request that detected the reuse has finished,
      no token of any family on that connection is accepted ever again, with anything at all
      interleaved before (`middle`) and after (`later`). */
  lemma ReplayKillsConnection(w: World, r: RequestId, middle: seq<Event>, later: seq<Event>, h: Digest, at: Time)
    requires Inv(w) && r in w.pcs && w.pcs[r].RefreshLoaded? && IsRotatedAway(w.db, w.pcs[r].token)
    requires var m := Run(Next(w, Rotate(r)), middle);
             r in m.pcs && m.pcs[r] == Revoking(w.db.refresh[w.pcs[r].token].connectionId)
    ensures var c := w.past.lineage[w.pcs[r].token].conn;
            var m := Run(Next(w, Rotate(r)), middle);
            Authenticate(Run(Next(m, FinishRevoke(r)), later).db, h, at) != Some(c)
  {
    NextKeeps(w, Rotate(r));
    var m := Run(Next(w, Rotate(r)), middle);
    RunKeeps(Next(w, Rotate(r)), middle);
    NextKeeps(m, FinishRevoke(r));
    FinishingRevokes(m, r);
    RevocationIsFinal(Next(m, FinishRevoke(r)), m.pcs[r].conn, later, h, at);
  }

  /** The step that detects reuse issues nothing and heads for revocation. */
  lemma ReuseIsDetected(w: World, r: RequestId)
    requires Inv(w) && r in w.pcs && w.pcs[r].RefreshLoaded? && IsRotatedAway(w.db, w.pcs[r].token)
    ensures var v := Next(w, Rotate(r));
            v.db == w.db && r in v.pcs && v.pcs[r] == Revoking(w.past.lineage[w.pcs[r].token].conn)
  {
  }

  // ---- rotation is linear ----

  /** Within a grant, a generation has one token: the family is a chain. */
  lemma {:induction false} FamilyIsChain(w: World, d: Digest, e: Digest)
    requires Inv(w) && d in w.past.lineage && e in w.past.lineage
    requires w.past.lineage[d].grant == w.past.lineage[e].grant
    requires w.past.lineage[d].generation == w.past.lineage[e].generation
    ensures d == e
    decreases w.past.lineage[d].generation
  {
    var l := w.past.lineage;
    assert ParentOk(l, l[d].parent, l[d].grant, l[d].conn) && ParentOk(l, l[e].parent, l[e].grant, l[e].conn);
    if l[d].generation == 0 {
      assert Root(l, d, l[d].grant) && Root(l, e, l[d].grant);
    } else {
      FamilyIsChain(w, l[d].parent.value, l[e].parent.value);
      assert Child(l, d, l[d].parent.value) && Child(l, e, l[d].parent.value);
    }
  }

  /** The live token of a family is its newest member. */
  lemma {:induction false} LiveIsNewest(w: World, d: Digest, e: Digest)
    requires Inv(w) && Live(w.db.refresh, d) && d in w.past.lineage && e in w.past.lineage
    requires w.past.lineage[d].grant == w.past.lineage[e].grant
    ensures w.past.lineage[e].generation <= w.past.lineage[d].generation
    decreases w.past.lineage[e].generation
  {
    var l := w.past.lineage;
    assert ParentOk(l, l[e].parent, l[e].grant, l[e].conn);
    if l[e].generation > l[d].generation {
      var p := l[e].parent.value;
      assert Child(l, e, p);
      if l[p].generation == l[d].generation {
        FamilyIsChain(w, p, d);
      } else {
        LiveIsNewest(w, d, p);
      }
      assert false;
    }
  }

  /** At any moment: at most one successor per token, at most one live token per grant, and no
      live token at all while the code is unspent or a request is minting for the grant. */
  lemma RotationIsLinear(w: World)
    requires Inv(w)
    ensures forall d, e, p | Child(w.past.lineage, d, p) && Child(w.past.lineage, e, p) :: d == e
    ensures forall d, e | Live(w.db.refresh, d) && Live(w.db.refresh, e)
              && w.past.lineage[d].grant == w.past.lineage[e].grant :: d == e
    ensures forall d, r | Live(w.db.refresh, d) && r in w.pcs :: !Carries(w.pcs[r], w.past.lineage[d].grant)
    ensures forall d, i | Live(w.db.refresh, d) && i in w.db.codes ::
              w.db.codes[i].codeHash != Some(w.past.lineage[d].grant)
  {
    var l := w.past.lineage;
    forall d, e | Live(w.db.refresh, d) && Live(w.db.refresh, e) && l[d].grant == l[e].grant ensures d == e {
      assert Holds(w.db.codes, w.pcs, w.db.refresh, l, ByToken(d), l[d].grant);
      assert Holds(w.db.codes, w.pcs, w.db.refresh, l, ByToken(e), l[d].grant);
    }
    forall d, r | Live(w.db.refresh, d) && r in w.pcs ensures !Carries(w.pcs[r], l[d].grant) {
      OnlyHolder(w, ByToken(d), ByRequest(r), l[d].grant);
    }
    forall d, i | Live(w.db.refresh, d) && i in w.db.codes ensures w.db.codes[i].codeHash != Some(l[d].grant) {
      OnlyHolder(w, ByToken(d), ByCode(i), l[d].grant);
    }
  }

  lemma OnlyHolder(w: World, x: Holder, y: Holder, g: Digest)
    requires Inv(w) && x != y && Holds(w.db.codes, w.pcs, w.db.refresh, w.past.lineage, x, g)
    ensures !Holds(w.db.codes, w.pcs, w.db.refresh, w.past.lineage, y, g)
  {
  }

  // ---- provenance ----

  /** Each code funds at most one family, and none while it can still be exchanged. */
  lemma CodeFundsOneGrant(w: World, d: Digest, e: Digest)
    requires Inv(w) && d in w.past.lineage && e in w.past.lineage
    requires w.past.lineage[d].parent.None? && w.past.lineage[e].parent.None?
    requires w.past.lineage[d].grant == w.past.lineage[e].grant
    ensures d == e
    ensures forall k, now :: LoadCode(w.db, k, w.past.lineage[d].grant, now).None?
  {
    var g := w.past.lineage[d].grant;
    assert Root(w.past.lineage, d, g) && Root(w.past.lineage, e, g);
    forall i ensures !HasCodeHash(w.db.codes, i, g) {
      assert !Unfunded(w.db.codes, w.pcs, ByCode(i), g);
    }
  }

  /** An accepted OAuth access token speaks for a connection whose user approved exactly its client. */
  lemma AccessHasProvenance(w: World, h: Digest, now: Time)
    requires Inv(w) && LoadAccessToken(w.db, h, now).Some?
    ensures var c := LoadAccessToken(w.db, h, now).value;
            && h in w.past.origin && w.past.origin[h] in w.past.approvals
            && w.past.approvals[w.past.origin[h]].user == w.db.conns[c].userId
            && Some(w.past.approvals[w.past.origin[h]].client) == w.db.conns[c].clientId
  {
  }

  lemma ApprovalsChange(w: World, e: Event, g: Digest)
    requires g !in w.past.approvals && g in Next(w, e).past.approvals
    ensures e.Approve? && Sha256(e.t) == g && AwaitsConsent(w.db, e.code, w.now)
    ensures Next(w, e).past.approvals[g] == Approval(e.u, w.db.codes[e.code].clientId)
  {
  }

  lemma OnlyConsentApproves(w: World, e: Event)
    ensures !IsConsent(e) && !IsExchange(e) ==> Next(w, e).past.approvals == w.past.approvals
    ensures IsExchange(e) ==> Next(w, e).past.approvals == w.past.approvals
  {
  }

  lemma ApprovalsStay(w: World, e: Event, g: Digest)
    requires Inv(w) && g in w.past.approvals
    ensures g in Next(w, e).past.approvals && Next(w, e).past.approvals[g] == w.past.approvals[g]
  {
    if !IsConsent(e) { OnlyConsentApproves(w, e); } else { ConsentKeepsApprovals(w, e, g); }
  }

  lemma ConsentKeepsApprovals(w: World, e: Event, g: Digest)
    requires IsConsent(e) && g in w.past.approvals && g in w.past.drawn
    ensures g in Next(w, e).past.approvals && Next(w, e).past.approvals[g] == w.past.approvals[g]
  {
  }

  lemma {:induction false} ApprovalsStayInRun(w: World, events: seq<Event>, g: Digest)
    requires Inv(w) && g in w.past.approvals
    ensures g in Run(w, events).past.approvals && Run(w, events).past.approvals[g] == w.past.approvals[g]
    decreases |events|
  {
    if events != [] {
      ApprovalsStay(w, events[0], g);
      NextKeeps(w, events[0]);
      ApprovalsStayInRun(Next(w, events[0]), events[1..], g);
    }
  }

  /** Behind every approval in a run is one consent event: that user, logged in, accepted a
      pending request of that client, and the code was drawn there. */
  lemma {:induction false} ApprovalIsConsent(w: World, events: seq<Event>, g: Digest) returns (i: nat)
    requires Inv(w) && g !in w.past.approvals && g in Run(w, events).past.approvals
    ensures i < |events| && events[i].Approve? && Sha256(events[i].t) == g
    ensures var before := Run(w, events[..i]);
            && AwaitsConsent(before.db, events[i].code, before.now)
            && Run(w, events).past.approvals[g] == Approval(events[i].u, before.db.codes[events[i].code].clientId)
    decreases |events|
  {
    var v := Next(w, events[0]);
    NextKeeps(w, events[0]);
    if g in v.past.approvals {
      ApprovalsChange(w, events[0], g);
      ApprovalsStayInRun(v, events[1..], g);
      i := 0;
    } else {
      var j := ApprovalIsConsent(v, events[1..], g);
      i := j + 1;
      assert events[..i][1..] == events[1..][..j];
    }
  }

  // ---- branches that cannot be taken ----

  /** The no-user branch of the exchange is unreachable, and `scalar_one_or_none` never sees two
      active connections, in any state of any interleaving. */
  lemma UnreachableBranches(events: seq<Event>, r: RequestId)
    ensures var w := Run(START, events);
            && (r in w.pcs && w.pcs[r].CodeLoaded? ==> w.pcs[r].subject.Some?)
            && (forall u, k :: !FindActive(w.db, u, k).MultipleRows?)
  {
    StartsOk();
    RunKeeps(START, events);
    var w := Run(START, events);
    if r in w.pcs { assert PcOk(w.pcs[r], w.past.approvals, w.past.created, w.past.lineage); }
  }

  /** An exchange that is about to create its connection finds its client, unless that client
      was registered at least thirty days ago. */
  lemma YoungClientsAreNotStranded(w: World, r: RequestId)
    requires Inv(w) && r in w.pcs && w.pcs[r].NoConnection?
    ensures var k := w.pcs[r].client;
            k in w.past.registered && (k in w.db.clients || w.past.registered[k] + UNUSED_CLIENT_TTL <= w.now)
  {
    assert PcOk(w.pcs[r], w.past.approvals, w.past.created, w.past.lineage);
  }

  /** Exactly when a sweep between SELECT and INSERT strands an exchange: its client is thirty
      days old and no connection, unexpired code or unexpired refresh token refers to it. The
      stranded request ends without a connection and gives its lock back. */
  lemma SweepStrandsExactly(w: World, r: RequestId, c: ConnId)
    requires Inv(w) && r in w.pcs && w.pcs[r].NoConnection? && w.pcs[r].client in w.db.clients
    requires c !in w.past.created
    ensures var k := w.pcs[r].client;
            var v := Next(Next(w, SweepRows), CreateConnection(r, c));
            && (c in v.db.conns <==>
                  w.db.clients[k].createdAt + UNUSED_CLIENT_TTL > w.now || ClientInUse(WithoutExpired(w.db, w.now), k))
            && (c !in v.db.conns ==> r !in v.pcs && forall l <- v.locks :: v.locks[l] != r)
  {
    assert PcOk(w.pcs[r], w.past.approvals, w.past.created, w.past.lineage);
  }

  // ---- the same, told from an empty database ----

  /** A connection whose row is marked revoked after any run from an empty database authenticates
      nobody in any continuation of that run. */
  lemma RevokedRowsStayRefused(before: seq<Event>, later: seq<Event>, c: ConnId, h: Digest, at: Time)
    requires var db := Run(START, before).db; c in db.conns && db.conns[c].revokedAt.Some?
    ensures Authenticate(Run(Run(START, before), later).db, h, at) != Some(c)
  {
    ReachableInv(before);
    RevocationIsFinal(Run(START, before), c, later, h, at);
  }

  /** After any run, an access token is accepted only for a connection whose user went through consent
      for exactly that connection's client earlier in the run. */
  lemma AcceptedMeansConsented(events: seq<Event>, h: Digest, now: Time) returns (i: nat)
    requires LoadAccessToken(Run(START, events).db, h, now).Some?
    ensures i < |events| && events[i].Approve?
    ensures var before := Run(START, events[..i]);
            var row := Run(START, events).db.conns[LoadAccessToken(Run(START, events).db, h, now).value];
            && AwaitsConsent(before.db, events[i].code, before.now)
            && row.userId == events[i].u && row.clientId == Some(before.db.codes[events[i].code].clientId)
  {
    StartsOk();
    ReachableInv(events);
    var w := Run(START, events);
    AccessHasProvenance(w, h, now);
    i := ApprovalIsConsent(START, events, w.past.origin[h]);
  }

  /** After any run, two live refresh tokens of one authorization grant are the same token. */
  lemma OneLiveToken(events: seq<Event>, d: Digest, e: Digest)
    requires var w := Run(START, events);
             && Live(w.db.refresh, d) && Live(w.db.refresh, e) && d in w.past.lineage && e in w.past.lineage
             && w.past.lineage[d].grant == w.past.lineage[e].grant
    ensures d == e
  {
    ReachableInv(events);
    RotationIsLinear(Run(START, events));
  }
}
