/** The UNIQUE columns that are not table keys stay unique in every interleaved run, so a lookup by
    email, code hash or personal token never meets two rows. */
module UniqueColumns {
  import opened Schema
  import opened Content
  import opened Database
  import opened OAuth
  import opened OAuthRuns

  ghost predicate Unique(db: Db) {
    UniqueEmails(db.users) && UniqueCodeHashes(db.codes) && UniqueTokenHashes(db.conns)
  }

  lemma ConsentKeepsUnique(w: World, e: Event)
    requires Unique(w.db) && IsConsent(e)
    ensures Unique(Next(w, e).db)
  {
    match e
    case AddUser(u, email) =>
      if v :| v in w.db.users && w.db.users[v] == email { assert HasEmail(w.db.users, v, email); }
    case Approve(id, u, t) => ApproveKeepsUnique(w, id, u, t);
    case _ =>
  }

  lemma ApproveKeepsUnique(w: World, id: CodeId, u: UserId, t: Token)
    requires Unique(w.db)
    ensures Unique(StepApprove(w, id, u, t).db)
  {
  }

  lemma ExchangeKeepsUnique(w: World, e: Event)
    requires Unique(w.db) && IsExchange(e)
    ensures Unique(Next(w, e).db)
  {
  }

  lemma OtherKeepsUnique(w: World, e: Event)
    requires Unique(w.db) && !IsConsent(e) && !IsExchange(e)
    ensures Unique(Next(w, e).db)
  {
    if e.UseContent? { assert SparesCredentials(w.db, Perform(w.db, e.cfg, e.q)); }
  }

  lemma {:induction false} RunKeepsUnique(w: World, events: seq<Event>)
    requires Unique(w.db)
    ensures Unique(Run(w, events).db)
    decreases |events|
  {
    if events != [] {
      if IsConsent(events[0]) { ConsentKeepsUnique(w, events[0]); }
      else if IsExchange(events[0]) { ExchangeKeepsUnique(w, events[0]); }
      else { OtherKeepsUnique(w, events[0]); }
      RunKeepsUnique(Next(w, events[0]), events[1..]);
    }
  }

  /** At most one row answers a lookup by email, by code hash or by personal token. */
  lemma LookupsAreUnambiguous(events: seq<Event>, email: string, h: Digest)
    ensures var db := Run(START, events).db;
            && (forall u, v | HasEmail(db.users, u, email) && HasEmail(db.users, v, email) :: u == v)
            && (forall i, j | HasCodeHash(db.codes, i, h) && HasCodeHash(db.codes, j, h) :: i == j)
            && (forall c, d | HasTokenHash(db, c, h) && HasTokenHash(db, d, h) :: c == d)
  {
    RunKeepsUnique(START, events);
  }
}
