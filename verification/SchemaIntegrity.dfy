/** Referential integrity in every interleaved run of the whole application. */
module SchemaIntegrity {
  import opened Basics
  import opened Schema
  import opened Content
  import opened OAuth
  import opened OAuthRuns
  import OAuthGuarantees
  import opened ContentIntegrity

  /** Content only needs connections and users not to disappear. */
  lemma GrowthKeeps(db: Db, d: Db)
    requires ContentOk(db)
    requires SameContent(db, d)
    requires db.conns.Keys <= d.conns.Keys && db.users.Keys <= d.users.Keys
    ensures ContentOk(d)
  {
  }

  predicate SameContent(db: Db, d: Db) {
    d.artifacts == db.artifacts && d.versions == db.versions && d.comments == db.comments && d.shares == db.shares
  }

  lemma ExchangeSparesContent(w: World, r: RequestId, c: ConnId)
    requires r in w.pcs
    ensures w.pcs[r].CodeLoaded? ==> SameContent(w.db, StepConsume(w, r, w.pcs[r]).db)
    ensures w.pcs[r].LockHeld? ==> SameContent(w.db, StepSelectConnection(w, r, w.pcs[r]).db)
    ensures w.pcs[r].NoConnection? ==> SameContent(w.db, StepCreateConnection(w, r, w.pcs[r], c).db)
  {
  }

  lemma TokensSpareContent(w: World, r: RequestId, a: Token, f: Token)
    requires r in w.pcs
    ensures w.pcs[r].Issuing? ==> SameContent(w.db, StepIssue(w, r, w.pcs[r], a, f).db)
    ensures w.pcs[r].RefreshLoaded? ==> SameContent(w.db, StepRotate(w, r, w.pcs[r]).db)
    ensures w.pcs[r].Revoking? ==> SameContent(w.db, StepFinishRevoke(w, r, w.pcs[r]).db)
  {
  }

  lemma ConsentSparesContent(w: World, k: ClientId, id: CodeId, u: UserId, t: Token, c: ConnId, at: Time)
    ensures SameContent(w.db, StepRegister(w, k).db) && SameContent(w.db, StepApprove(w, id, u, t).db)
    ensures SameContent(w.db, StepPersonalToken(w, c, u, t, at).db)
    ensures SameContent(w.db, After(w.db, Authorize(w.db, k, id, at)))
        && SameContent(w.db, After(w.db, DenyConsent(w.db, id, at)))
  {
  }

  lemma ConsentStepSparesContent(w: World, e: Event)
    requires IsConsent(e)
    ensures SameContent(w.db, Next(w, e).db)
  {
    match e
    case Register(k) => ConsentSparesContent(w, k, 0, 0, 0, 0, 0);
    case BeginAuthorize(k, id) => ConsentSparesContent(w, k, id, 0, 0, 0, w.now);
    case Approve(id, u, t) => ConsentSparesContent(w, 0, id, u, t, 0, 0);
    case Deny(id) => ConsentSparesContent(w, 0, id, 0, 0, 0, w.now);
    case NewPersonalToken(c, u, t, expires) => ConsentSparesContent(w, 0, 0, u, t, c, expires);
    case _ =>
  }

  lemma ExchangeStepSparesContent(w: World, e: Event)
    requires IsExchange(e)
    ensures SameContent(w.db, Next(w, e).db)
  {
    match e
    case Consume(r) => if r in w.pcs { ExchangeSparesContent(w, r, 0); }
    case SelectConnection(r) => if r in w.pcs { ExchangeSparesContent(w, r, 0); }
    case CreateConnection(r, c) => if r in w.pcs { ExchangeSparesContent(w, r, c); }
    case Issue(r, a, f) => if r in w.pcs { TokensSpareContent(w, r, a, f); }
    case _ =>
  }

  lemma StepSparesContent(w: World, e: Event)
    requires !e.UseContent?
    ensures SameContent(w.db, Next(w, e).db)
  {
    if IsConsent(e) {
      ConsentStepSparesContent(w, e);
    } else if IsExchange(e) {
      ExchangeStepSparesContent(w, e);
    } else {
      OtherStepSparesContent(w, e);
    }
  }

  lemma OtherStepSparesContent(w: World, e: Event)
    requires !IsConsent(e) && !IsExchange(e) && !e.UseContent?
    ensures SameContent(w.db, Next(w, e).db)
  {
    match e
    case Rotate(r) => if r in w.pcs { TokensSpareContent(w, r, 0, 0); }
    case FinishRevoke(r) => if r in w.pcs { TokensSpareContent(w, r, 0, 0); }
    case _ =>
  }

  lemma CredentialStepsGrow(w: World, e: Event)
    requires !e.RemoveConnection? && !e.UseContent?
    ensures w.db.conns.Keys <= Next(w, e).db.conns.Keys
    ensures w.db.users.Keys <= Next(w, e).db.users.Keys
  {
  }

  lemma NextKeepsContent(w: World, e: Event)
    requires ContentOk(w.db)
    ensures ContentOk(Next(w, e).db)
  {
    if e.RemoveConnection? {
      DeleteConnectionKeeps(w.db, e.c);
    } else if e.UseContent? {
      PerformKeeps(w.db, e.cfg, e.q);
    } else {
      StepSparesContent(w, e);
      CredentialStepsGrow(w, e);
      GrowthKeeps(w.db, Next(w, e).db);
    }
  }

  lemma {:induction false} RunKeepsContent(w: World, events: seq<Event>)
    requires ContentOk(w.db)
    ensures ContentOk(Run(w, events).db)
    decreases |events|
  {
    if events != [] {
      NextKeepsContent(w, events[0]);
      RunKeepsContent(Next(w, events[0]), events[1..]);
    }
  }

  /** In every reachable state of every interleaving, every foreign key is satisfied. */
  lemma EveryForeignKeyHolds(events: seq<Event>)
    ensures ForeignKeys(Run(START, events).db)
  {
    RunKeepsContent(START, events);
    OAuthGuarantees.ReachableInv(events);
  }
}
