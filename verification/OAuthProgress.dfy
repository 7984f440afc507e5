/** The server does what its clients come for: from any reachable state, consent, exchange, refresh, replay and
    revocation, run without anything in between, end where they should. The runs of OAuthRuns say that nothing bad
    happens; these say that something does. */
module OAuthProgress {
  import opened Basics
  import opened Schema
  import opened Database
  import Content
  import opened OAuth
  import opened OAuthRuns
  import opened OAuthInvariant
  import opened Lifetimes
  import opened CredentialLife
  import OAuthGuarantees
  import OAuthSteps

  // ---- short runs ----

  lemma RunTwo(w: World, e: Event, f: Event)
    ensures Run(w, [e, f]) == Next(Next(w, e), f)
  {
    assert [e, f][1..] == [f] && [f][1..] == [];
    assert Run(Next(w, e), [f]) == Run(Next(Next(w, e), f), []);
  }

  lemma RunThree(w: World, e: Event, f: Event, g: Event)
    ensures Run(w, [e, f, g]) == Next(Next(Next(w, e), f), g)
  {
    assert [e, f, g][1..] == [f, g];
    RunTwo(Next(w, e), f, g);
  }

  lemma RunSix(w: World, events: seq<Event>)
    requires |events| == 6
    ensures Run(w, events)
         == Next(Next(Next(Next(Next(Next(w, events[0]), events[1]), events[2]), events[3]), events[4]), events[5])
  {
    var v := Next(Next(Next(w, events[0]), events[1]), events[2]);
    assert events[1..][1..] == events[2..] && events[2..][1..] == events[3..];
    assert events[3..] == [events[3], events[4], events[5]];
    assert Run(Next(w, events[0]), events[1..]) == Run(Next(Next(w, events[0]), events[1]), events[2..]);
    assert Run(Next(Next(w, events[0]), events[1]), events[2..]) == Run(v, events[3..]);
    RunThree(v, events[3], events[4], events[5]);
  }

  // ---- consent ----

  /** A registered client asks, a user agrees in time: the fresh code can be exchanged by exactly that client, for ten
      minutes, in the name of that user. */
  lemma ConsentYieldsCode(w: World, k: ClientId, i: CodeId, u: UserId, t: Token, j: ClientId, at: Time)
    requires Inv(w) && k in w.db.clients && u in w.db.users && i !in w.db.codes && Sha256(t) !in w.past.drawn
    ensures var db := Run(w, [BeginAuthorize(k, i), Approve(i, u, t)]).db;
            && (LoadCode(db, j, Sha256(t), at).Some? <==> j == k && at < w.now + 10 * MINUTE)
            && (LoadCode(db, j, Sha256(t), at).Some? ==> LoadCode(db, j, Sha256(t), at).value.userId == Some(u))
  {
    RunTwo(w, BeginAuthorize(k, i), Approve(i, u, t));
    Agrees(w, k, i, u, t);
    CodeLifetime(w.db, k, i, w.now, u, Sha256(t), w.now, j, at);
  }

  lemma Agrees(w: World, k: ClientId, i: CodeId, u: UserId, t: Token)
    requires Inv(w) && k in w.db.clients && u in w.db.users && i !in w.db.codes && Sha256(t) !in w.past.drawn
    ensures var asked := Authorize(w.db, k, i, w.now);
            && asked.Commit? && ApproveConsent(asked.db, i, u, Sha256(t), w.now).Commit?
            && Next(Next(w, BeginAuthorize(k, i)), Approve(i, u, t)).db
               == ApproveConsent(asked.db, i, u, Sha256(t), w.now).db
    ensures UniqueCodeHashes(w.db.codes)
  {
    CodesWereDrawn(w);
    assert !CodeHashTaken(Authorize(w.db, k, i, w.now).db.codes, Sha256(t));
  }

  lemma CodesWereDrawn(w: World)
    requires Inv(w)
    ensures forall i <- w.db.codes :: w.db.codes[i].codeHash.Some? ==> w.db.codes[i].codeHash.value in w.past.drawn
  {
    forall i | i in w.db.codes && w.db.codes[i].codeHash.Some? ensures w.db.codes[i].codeHash.value in w.past.drawn {
      assert ConsentRow(w.db.codes[i], w.past.approvals);
    }
  }

  /** A person who declines leaves nothing behind, and nobody can agree afterwards. */
  lemma DeniedIsGone(w: World, i: CodeId, u: UserId, t: Token)
    requires AwaitsConsent(w.db, i, w.now)
    ensures var v := Next(w, Deny(i)); i !in v.db.codes && Next(v, Approve(i, u, t)) == v
  {
  }

  // ---- issuing ----

  /** The pair a request issues opens the gate and can be refreshed, and nobody else holds it. */
  lemma IssueDelivers(w: World, r: RequestId, a: Token, f: Token)
    requires Inv(w) && Separate(w) && r in w.pcs && w.pcs[r].Issuing?
    requires w.pcs[r].conn in w.db.conns && w.pcs[r].client in w.db.clients
    requires Sha256(a) !in w.past.drawn && Sha256(f) !in w.past.drawn && a != f
    ensures var v := Next(w, Issue(r, a, f));
            && r !in v.pcs && v.db.conns == w.db.conns && v.db.codes == w.db.codes && v.past.created == w.past.created
            && Delivered(v, w.pcs[r].conn, w.pcs[r].client, a, f)
            && Sha256(f) in v.past.lineage
            && v.past.lineage[Sha256(f)].grant == w.pcs[r].grant && v.past.lineage[Sha256(f)].parent == w.pcs[r].parent
  {
    AccessWasDrawn(w);
    assert Sha256(a) !in w.db.access && Sha256(f) !in w.db.refresh;
    IssuesRows(w, r, a, f);
    PairWorks(w.db, w.pcs[r].conn, w.pcs[r].client, Sha256(a), Sha256(f), w.now);
  }

  lemma IssuesRows(w: World, r: RequestId, a: Token, f: Token)
    requires r in w.pcs && w.pcs[r].Issuing? && w.pcs[r].conn in w.db.conns && w.pcs[r].client in w.db.clients
    requires Sha256(a) !in w.past.drawn && Sha256(f) !in w.past.drawn && a != f
    requires Sha256(a) !in w.db.access && Sha256(f) !in w.db.refresh
    ensures var v, pc := Next(w, Issue(r, a, f)), w.pcs[r];
            && IssueTokens(w.db, pc.conn, pc.client, Sha256(a), Sha256(f), w.now).Commit?
            && v.db == IssueTokens(w.db, pc.conn, pc.client, Sha256(a), Sha256(f), w.now).db
            && r !in v.pcs && v.now == w.now && v.past.created == w.past.created && Sha256(f) in v.past.lineage
            && v.past.lineage[Sha256(f)].grant == pc.grant && v.past.lineage[Sha256(f)].parent == pc.parent
  {
  }

  lemma PairWorks(db: Db, c: ConnId, k: ClientId, access: Digest, refresh: Digest, now: Time)
    requires IssueTokens(db, c, k, access, refresh, now).Commit?
    requires forall d <- db.conns :: db.conns[d].tokenHash != Some(access)
    ensures var after := IssueTokens(db, c, k, access, refresh, now).db;
            && (forall at :: Authenticate(after, access, at) ==
                  if at < now + HOUR && db.conns[c].revokedAt.None? then Some(c) else None)
            && (forall j, at :: LoadsRefresh(after, j, refresh, at) <==> j == k && at < now + 180 * DAY)
            && Live(after.refresh, refresh)
  {
    var after := IssueTokens(db, c, k, access, refresh, now).db;
    forall at ensures Authenticate(after, access, at) ==
                      if at < now + HOUR && db.conns[c].revokedAt.None? then Some(c) else None
    {
      AccessTokenOpensGate(db, c, k, access, refresh, now, at);
    }
  }

  /** The access token opens the connection for an hour unless it is revoked, the refresh token can be presented
      by its client for 180 days and has not been used. */
  ghost predicate Delivered(v: World, c: ConnId, k: ClientId, a: Token, f: Token) {
    && c in v.db.conns
    && (forall at :: Authenticate(v.db, Sha256(a), at) ==
          if at < v.now + HOUR && v.db.conns[c].revokedAt.None? then Some(c) else None)
    && (forall j, at :: LoadsRefresh(v.db, j, Sha256(f), at) <==> j == k && at < v.now + 180 * DAY)
    && Live(v.db.refresh, Sha256(f))
  }

  // ---- code exchange ----

  lemma ExchangeBegins(w: World, r: RequestId, t: Token, k: ClientId)
    requires Inv(w) && r !in w.pcs && LoadCode(w.db, k, Sha256(t), w.now).Some?
    ensures var row := LoadCode(w.db, k, Sha256(t), w.now).value;
            && row.userId.Some? && row.userId.value in w.db.users && k in w.db.clients
            && Next(w, BeginExchange(r, t, k)) == w.(pcs := w.pcs[r := CodeLoaded(Sha256(t), k, row.userId)])
  {
    var i := FindCode(w.db, Sha256(t)).value;
    assert ConsentRow(w.db.codes[i], w.past.approvals);
  }

  lemma CodeIsSpent(w: World, r: RequestId, h: Digest, k: ClientId, u: UserId)
    requires Inv(w) && r in w.pcs && w.pcs[r] == CodeLoaded(h, k, Some(u)) && FindCode(w.db, h).Some?
    ensures var v := Next(w, Consume(r));
            && v == w.(db := v.db, pcs := w.pcs[r := CodeConsumed(h, u, k)]) && v.db == w.db.(codes := v.db.codes)
            && NoRowHas(v, h)
  {
    CodesWereDrawn(w);
    SpendingRemoves(w, Consume(r), h);
  }

  /** With nobody else exchanging for the same user and client, the lock is had at once. */
  lemma LockIsTaken(w: World, r: RequestId, h: Digest, u: UserId, k: ClientId)
    requires r in w.pcs && w.pcs[r] == CodeConsumed(h, u, k) && LockKey(u, k) !in w.locks
    ensures var v := Next(w, AcquireLock(r));
            v == w.(locks := v.locks, pcs := w.pcs[r := LockHeld(h, u, k)])
  {
  }

  ghost predicate Had(w: World, v: World, r: RequestId, h: Digest, u: UserId, k: ClientId) {
    && v.db == w.db.(conns := v.db.conns) && v.now == w.now && v.past.drawn == w.past.drawn
    && r in v.pcs && v.pcs[r].Issuing? && v.pcs[r] == Issuing(h, None, v.pcs[r].conn, k)
    && ActiveFor(v.db.conns, v.pcs[r].conn, u, k)
  }

  lemma ConnectionIsFound(w: World, r: RequestId, h: Digest, u: UserId, k: ClientId, c: ConnId)
    requires Inv(w) && r in w.pcs && w.pcs[r] == LockHeld(h, u, k) && !FindActive(w.db, u, k).NoRow?
    ensures Had(w, Next(w, SelectConnection(r)), r, h, u, k)
    ensures Next(Next(w, SelectConnection(r)), CreateConnection(r, c)) == Next(w, SelectConnection(r))
  {
    OAuthSteps.FindActiveMeaning(w.db, u, k);
  }

  lemma ConnectionIsMade(w: World, r: RequestId, h: Digest, u: UserId, k: ClientId, c: ConnId)
    requires Inv(w) && r in w.pcs && w.pcs[r] == LockHeld(h, u, k) && FindActive(w.db, u, k).NoRow?
    requires k in w.db.clients && u in w.db.users && c !in w.past.created
    ensures Had(w, Next(Next(w, SelectConnection(r)), CreateConnection(r, c)), r, h, u, k)
  {
    LooksInVain(w, r, h, u, k);
    Makes(w.(pcs := w.pcs[r := NoConnection(h, u, k)]), r, h, u, k, c);
  }

  lemma LooksInVain(w: World, r: RequestId, h: Digest, u: UserId, k: ClientId)
    requires r in w.pcs && w.pcs[r] == LockHeld(h, u, k) && FindActive(w.db, u, k).NoRow?
    ensures Next(w, SelectConnection(r)) == w.(pcs := w.pcs[r := NoConnection(h, u, k)])
  {
  }

  lemma Makes(w: World, r: RequestId, h: Digest, u: UserId, k: ClientId, c: ConnId)
    requires r in w.pcs && w.pcs[r] == NoConnection(h, u, k) && c !in w.db.conns
    requires k in w.db.clients && u in w.db.users && c !in w.past.created
    ensures Had(w, Next(w, CreateConnection(r, c)), r, h, u, k)
  {
  }

  lemma ConnectionIsHad(w: World, r: RequestId, h: Digest, u: UserId, k: ClientId, c: ConnId)
    requires Inv(w) && r in w.pcs && w.pcs[r] == LockHeld(h, u, k) && k in w.db.clients && u in w.db.users
    requires c !in w.past.created
    ensures Had(w, Next(Next(w, SelectConnection(r)), CreateConnection(r, c)), r, h, u, k)
  {
    if FindActive(w.db, u, k).NoRow? {
      ConnectionIsMade(w, r, h, u, k, c);
    } else {
      ConnectionIsFound(w, r, h, u, k, c);
    }
  }

  lemma CodeGetsSpent(w: World, r: RequestId, t: Token, k: ClientId, u: UserId)
    requires Inv(w) && Separate(w) && r !in w.pcs && LoadCode(w.db, k, Sha256(t), w.now).Some?
    requires LoadCode(w.db, k, Sha256(t), w.now).value.userId == Some(u)
    ensures var v := Next(Next(w, BeginExchange(r, t, k)), Consume(r));
            && Inv(v) && Separate(v) && NoRowHas(v, Sha256(t))
            && r in v.pcs && v.pcs[r] == CodeConsumed(Sha256(t), u, k)
            && k in v.db.clients && u in v.db.users && v.locks == w.locks && v.past == w.past
  {
    var loaded := Next(w, BeginExchange(r, t, k));
    ExchangeBegins(w, r, t, k);
    Kept(w, BeginExchange(r, t, k));
    CodeIsSpent(loaded, r, Sha256(t), k, u);
    Kept(loaded, Consume(r));
  }

  /** A code that loads is exchanged: undisturbed, with its lock free, the request ends with the code spent, an active
      connection of that user for that client, found or made, and a working pair of tokens for it. */
  lemma ExchangeSucceeds(w: World, r: RequestId, t: Token, k: ClientId, u: UserId, c: ConnId, a: Token, f: Token)
      returns (d: ConnId)
    requires Inv(w) && Separate(w) && r !in w.pcs && LoadCode(w.db, k, Sha256(t), w.now).Some?
    requires LoadCode(w.db, k, Sha256(t), w.now).value.userId == Some(u) && LockKey(u, k) !in w.locks
    requires c !in w.past.created && Sha256(a) !in w.past.drawn && Sha256(f) !in w.past.drawn && a != f
    ensures var v := Run(w, [BeginExchange(r, t, k), Consume(r), AcquireLock(r), SelectConnection(r),
                             CreateConnection(r, c), Issue(r, a, f)]);
            && r !in v.pcs && NoRowHas(v, Sha256(t)) && Delivered(v, d, k, a, f)
            && v.db.conns[d].userId == u && v.db.conns[d].clientId == Some(k) && v.db.conns[d].revokedAt.None?
            && Root(v.past.lineage, Sha256(f), Sha256(t))
  {
    var spent := Next(Next(w, BeginExchange(r, t, k)), Consume(r));
    CodeGetsSpent(w, r, t, k, u);
    d := SpentCodeDelivers(spent, r, Sha256(t), k, u, c, a, f);
    RunSix(w, [BeginExchange(r, t, k), Consume(r), AcquireLock(r), SelectConnection(r), CreateConnection(r, c),
               Issue(r, a, f)]);
  }

  lemma Kept(w: World, e: Event)
    requires Inv(w) && Separate(w)
    ensures Inv(Next(w, e)) && Separate(Next(w, e))
  {
    OAuthGuarantees.NextKeeps(w, e);
    StaysSeparate(w, e);
  }

  lemma SpentCodeDelivers(w: World, r: RequestId, h: Digest, k: ClientId, u: UserId, c: ConnId, a: Token, f: Token)
      returns (d: ConnId)
    requires Inv(w) && Separate(w) && NoRowHas(w, h) && r in w.pcs && w.pcs[r] == CodeConsumed(h, u, k)
    requires k in w.db.clients && u in w.db.users && LockKey(u, k) !in w.locks
    requires c !in w.past.created && Sha256(a) !in w.past.drawn && Sha256(f) !in w.past.drawn && a != f
    ensures var v := Next(Next(Next(Next(w, AcquireLock(r)), SelectConnection(r)), CreateConnection(r, c)),
                          Issue(r, a, f));
            && r !in v.pcs && NoRowHas(v, h) && ActiveFor(v.db.conns, d, u, k) && Delivered(v, d, k, a, f)
            && Root(v.past.lineage, Sha256(f), h)
  {
    var held := Next(w, AcquireLock(r));
    var ready := Next(Next(held, SelectConnection(r)), CreateConnection(r, c));
    LockIsTaken(w, r, h, u, k);
    Kept(w, AcquireLock(r));
    ConnectionIsHad(held, r, h, u, k, c);
    Kept(held, SelectConnection(r));
    Kept(Next(held, SelectConnection(r)), CreateConnection(r, c));
    IssueDelivers(ready, r, a, f);
    DrawnCodeHash(ready, Issue(r, a, f), h);
    NextPastGrows(ready, Issue(r, a, f));
    d := ready.pcs[r].conn;
  }

  // ---- refresh ----

  /** A token that was not used before is rotated: its client gets a working pair for the same connection, and the
      old token can still be presented, as long as before, to be recognised. */
  lemma RefreshSucceeds(w: World, r: RequestId, t: Token, k: ClientId, a: Token, f: Token)
    requires Inv(w) && Separate(w) && r !in w.pcs
    requires LoadsRefresh(w.db, k, Sha256(t), w.now) && Live(w.db.refresh, Sha256(t))
    requires Sha256(a) !in w.past.drawn && Sha256(f) !in w.past.drawn && a != f
    ensures var v := Run(w, [BeginRefresh(r, t, k), Rotate(r), Issue(r, a, f)]);
            && r !in v.pcs && Delivered(v, w.db.refresh[Sha256(t)].connectionId, k, a, f)
            && Child(v.past.lineage, Sha256(f), Sha256(t)) && IsRotatedAway(v.db, Sha256(t))
            && (forall j, at :: LoadsRefresh(v.db, j, Sha256(t), at) <==> LoadsRefresh(w.db, j, Sha256(t), at))
  {
    var begun := Next(w, BeginRefresh(r, t, k));
    var marked := Next(begun, Rotate(r));
    RunThree(w, BeginRefresh(r, t, k), Rotate(r), Issue(r, a, f));
    Presents(w, r, t, k);
    Kept(w, BeginRefresh(r, t, k));
    Marks(begun, r, Sha256(t));
    Kept(begun, Rotate(r));
    IssueDelivers(marked, r, a, f);
    OldTokenStays(marked, r, a, f, Sha256(t));
  }

  /** Whatever its mark, the token gets its request in. */
  lemma Presents(w: World, r: RequestId, t: Token, k: ClientId)
    requires r !in w.pcs && LoadsRefresh(w.db, k, Sha256(t), w.now)
    ensures Next(w, BeginRefresh(r, t, k)) == w.(pcs := w.pcs[r := RefreshLoaded(Sha256(t))])
  {
  }

  lemma Marks(w: World, r: RequestId, h: Digest)
    requires Inv(w) && r in w.pcs && w.pcs[r] == RefreshLoaded(h) && Live(w.db.refresh, h)
    ensures var v, row := Next(w, Rotate(r)), w.db.refresh[h];
            && RotateAway(w.db, h, w.now).Commit? && v.db == RotateAway(w.db, h, w.now).db
            && v == w.(db := v.db, pcs := w.pcs[r :=
                 Issuing(w.past.lineage[h].grant, Some(h), row.connectionId, row.clientId)])
            && row.connectionId in v.db.conns && row.clientId in v.db.clients
  {
  }

  lemma OldTokenStays(w: World, r: RequestId, a: Token, f: Token, h: Digest)
    requires Inv(w) && r in w.pcs && w.pcs[r].Issuing? && IsRotatedAway(w.db, h)
    requires w.db.refresh[h].connectionId in w.db.conns
    ensures var v := Next(w, Issue(r, a, f));
            && IsRotatedAway(v.db, h) && v.db.refresh[h] == w.db.refresh[h]
            && w.db.refresh[h].connectionId in v.db.conns
  {
    IssueAdds(w, Issue(r, a, f));
  }

  // ---- replay ----

  /** Presenting a token that was replaced: the request is let in, notices, and revokes the connection. */
  lemma ReplayRevokes(w: World, r: RequestId, t: Token, k: ClientId)
    requires Inv(w) && r !in w.pcs && Sha256(t) in w.db.refresh
    requires w.db.refresh[Sha256(t)].clientId == k && w.now < w.db.refresh[Sha256(t)].expiresAt
    requires (exists d :: Child(w.past.lineage, d, Sha256(t))) || w.db.refresh[Sha256(t)].revokedAt.Some?
    ensures var c := w.db.refresh[Sha256(t)].connectionId;
            var v := Run(w, [BeginRefresh(r, t, k), Rotate(r), FinishRevoke(r)]);
            && r !in v.pcs && v.db == RevokeConnection(w.db, c, w.now)
            && c in v.past.revoked && c in v.db.conns && v.db.conns[c].revokedAt == Some(w.now)
            && v.past.lineage == w.past.lineage
  {
    var h, c := Sha256(t), w.db.refresh[Sha256(t)].connectionId;
    RunThree(w, BeginRefresh(r, t, k), Rotate(r), FinishRevoke(r));
    assert !Live(w.db.refresh, h);
    Presents(w, r, t, k);
    Notices(Next(w, BeginRefresh(r, t, k)), r, h);
    Finishes(Next(Next(w, BeginRefresh(r, t, k)), Rotate(r)), r, c);
  }

  lemma Notices(w: World, r: RequestId, h: Digest)
    requires r in w.pcs && w.pcs[r] == RefreshLoaded(h) && h in w.past.lineage && IsRotatedAway(w.db, h)
    ensures Next(w, Rotate(r)) == w.(pcs := w.pcs[r := Revoking(w.db.refresh[h].connectionId)])
  {
  }

  lemma Finishes(w: World, r: RequestId, c: ConnId)
    requires r in w.pcs && w.pcs[r] == Revoking(c) && c in w.db.conns
    ensures var v := Next(w, FinishRevoke(r));
            && r !in v.pcs && v.pcs == w.pcs - {r} && v.db == RevokeConnection(w.db, c, w.now)
            && v.past == w.past.(revoked := w.past.revoked + {c})
            && c in v.db.conns && v.db.conns[c].revokedAt == Some(w.now)
  {
  }

  lemma {:induction false} MarkedStays(w: World, events: seq<Event>, h: Digest)
    requires IsRotatedAway(w.db, h) && h in w.past.drawn
    ensures h in Run(w, events).db.refresh ==> IsRotatedAway(Run(w, events).db, h)
    decreases |events|
  {
    if events != [] {
      RowsChangeOnlyAsMeant(w, events[0]);
      NextPastGrows(w, events[0]);
      if h in Next(w, events[0]).db.refresh {
        MarkedStays(Next(w, events[0]), events[1..], h);
      } else {
        NeverBack(Next(w, events[0]), events[1..], h);
      }
    }
  }

  lemma {:induction false} NeverBack(w: World, events: seq<Event>, h: Digest)
    requires h !in w.db.refresh && h in w.past.drawn
    ensures h !in Run(w, events).db.refresh
    decreases |events|
  {
    if events != [] {
      DrawnNotReissued(w, events[0], h);
      NextPastGrows(w, events[0]);
      NeverBack(Next(w, events[0]), events[1..], h);
    }
  }

  /** Over every interleaving before and after: once a refresh token has been used, whoever presents it again from its
      client before it expires, while its connection exists, ends that connection for good. */
  lemma ReplayIsFatal(w: World, middle: seq<Event>, r: RequestId, t: Token, later: seq<Event>, h: Digest, at: Time)
    requires Inv(w) && IsRotatedAway(w.db, Sha256(t))
    requires r !in Run(w, middle).pcs && Run(w, middle).now < w.db.refresh[Sha256(t)].expiresAt
    requires w.db.refresh[Sha256(t)].connectionId in Run(w, middle).db.conns
    ensures var row := w.db.refresh[Sha256(t)];
            var v := Run(Run(w, middle), [BeginRefresh(r, t, row.clientId), Rotate(r), FinishRevoke(r)]);
            && row.connectionId in v.past.revoked
            && Authenticate(Run(v, later).db, h, at) != Some(row.connectionId)
  {
    var row, m := w.db.refresh[Sha256(t)], Run(w, middle);
    assert Sha256(t) in w.past.lineage && Sha256(t) in w.past.drawn;
    OAuthGuarantees.RunKeeps(w, middle);
    PresentedExactly(w, middle, Sha256(t), row.clientId, m.now);
    PresentableAfterRun(w, middle, Sha256(t), row);
    MarkedStays(w, middle, Sha256(t));
    ReplayRevokes(m, r, t, row.clientId);
    OAuthGuarantees.RunKeeps(m, [BeginRefresh(r, t, row.clientId), Rotate(r), FinishRevoke(r)]);
    OAuthGuarantees.RevocationIsFinal(Run(m, [BeginRefresh(r, t, row.clientId), Rotate(r), FinishRevoke(r)]),
                                      row.connectionId, later, h, at);
  }

  // ---- giving up, removal, housekeeping ----

  /** A request that is abandoned is gone with its locks, and leaves every row and every other request alone. */
  lemma AbandonedIsGone(w: World, r: RequestId, q: RequestId)
    ensures var v := Next(w, Abandon(r));
            && r !in v.pcs && v.db == w.db && v.past == w.past && (forall l <- v.locks :: v.locks[l] != r)
            && (q != r && q in w.pcs ==> q in v.pcs && v.pcs[q] == w.pcs[q])
            && (forall l <- w.locks :: w.locks[l] != r ==> l in v.locks && v.locks[l] == w.locks[l])
  {
  }

  /** A revoked connection that nothing refers to can be removed, and then it is gone with its tokens. */
  lemma RemovalRemoves(w: World, c: ConnId, t: Digest)
    requires c in w.db.conns && w.db.conns[c].revokedAt.Some? && !HasContent(w.db, c)
    ensures var v := Next(w, RemoveConnection(c));
            && c !in v.db.conns
            && (t in v.db.access ==> v.db.access[t].connectionId != c)
            && (t in v.db.refresh ==> v.db.refresh[t].connectionId != c)
  {
    RemovalExactly(w.db, c);
  }

  /** The sweep and the content requests of the machine are the transactions themselves. */
  lemma HousekeepingHappens(w: World, cfg: Content.Config, q: Content.Request, i: CodeId)
    ensures Next(w, UseContent(cfg, q)) == w.(db := Content.After(w.db, Content.Perform(w.db, cfg, q)))
    ensures i in w.db.codes && w.db.codes[i].expiresAt <= w.now ==> i !in Next(w, SweepRows).db.codes
  {
    SweepExactly(w.db, w.now);
  }

  // ---- revocation on request ----

  /** Either kind of token leads to its connection. */
  lemma TokensLeadToConnection(db: Db, h: Digest, c: ConnId)
    ensures TokenConnection(db, h) == Some(c) <==>
            || (h in db.access && db.access[h].connectionId == c)
            || (h !in db.access && h in db.refresh && db.refresh[h].connectionId == c)
  {
  }

  /** A known token, of either kind, revokes its connection, an unknown one changes nothing. */
  lemma RevocationByToken(w: World, r: RequestId, t: Token)
    requires Inv(w) && r !in w.pcs
    ensures var v, conn := Run(w, [BeginRevokeToken(r, t), FinishRevoke(r)]), TokenConnection(w.db, Sha256(t));
            && (conn.None? ==> v == w)
            && (conn.Some? ==> conn.value in v.past.revoked && v.db == RevokeConnection(w.db, conn.value, w.now))
  {
    var conn := TokenConnection(w.db, Sha256(t));
    RunTwo(w, BeginRevokeToken(r, t), FinishRevoke(r));
    BeginsRevoking(w, r, t);
    if conn.Some? {
      KnownTokenHasConnection(w, Sha256(t));
      Finishes(w.(pcs := w.pcs[r := Revoking(conn.value)]), r, conn.value);
    }
  }

  lemma BeginsRevoking(w: World, r: RequestId, t: Token)
    requires r !in w.pcs
    ensures var conn := TokenConnection(w.db, Sha256(t));
            Next(w, BeginRevokeToken(r, t)) == if conn.Some? then w.(pcs := w.pcs[r := Revoking(conn.value)]) else w
    ensures Next(w, FinishRevoke(r)) == w
  {
  }

  lemma KnownTokenHasConnection(w: World, h: Digest)
    requires Inv(w) && TokenConnection(w.db, h).Some?
    ensures TokenConnection(w.db, h).value in w.db.conns
  {
  }

  /** And it ends nobody else's session: the access tokens of every other connection open it as before. */
  lemma RevocationSparesSessions(w: World, r: RequestId, t: Token, d: ConnId, h: Digest, at: Time)
    requires Inv(w) && r !in w.pcs && TokenConnection(w.db, Sha256(t)) != Some(d)
    ensures var v := Run(w, [BeginRevokeToken(r, t), FinishRevoke(r)]);
            && (LoadAccessToken(v.db, h, at) == Some(d) <==> LoadAccessToken(w.db, h, at) == Some(d))
            && (d in w.db.conns ==> d in v.db.conns && v.db.conns[d] == w.db.conns[d])
            && (h in w.db.refresh && w.db.refresh[h].connectionId == d ==>
                  h in v.db.refresh && v.db.refresh[h] == w.db.refresh[h])
  {
    var conn := TokenConnection(w.db, Sha256(t));
    RevocationByToken(w, r, t);
    if conn.Some? {
      RevocationSparesOthers(w.db, conn.value, w.now, d, h, at);
      RevocationExactly(w.db, conn.value, w.now);
    }
  }

  /** The dashboard's button does the same for a connection that exists. */
  lemma RevocationByConnection(w: World, r: RequestId, c: ConnId)
    requires r !in w.pcs && c in w.db.conns
    ensures var v := Run(w, [BeginRevokeConnection(r, c), FinishRevoke(r)]);
            c in v.past.revoked && v.db == RevokeConnection(w.db, c, w.now)
  {
    RunTwo(w, BeginRevokeConnection(r, c), FinishRevoke(r));
    Finishes(Next(w, BeginRevokeConnection(r, c)), r, c);
  }
}
