/** Every event keeps the invariant of the authorization server. */
module OAuthSteps {
  import opened Basics
  import opened Schema
  import opened Content
  import opened OAuth
  import opened OAuthRuns
  import opened OAuthInvariant

  // ---- how the baton travels ----

  predicate Grantless(pc: Pc) {
    pc.CodeLoaded? || pc.RefreshLoaded? || pc.Revoking?
  }

  /** Nothing gains a grant: no new hashed code, no new working request, no token comes alive. */
  ghost predicate NoNewHolders(w: World, v: World) {
    && v.past.lineage == w.past.lineage
    && (forall i <- v.db.codes :: v.db.codes[i].codeHash.Some? ==>
          i in w.db.codes && v.db.codes[i].codeHash == w.db.codes[i].codeHash)
    && (forall r <- v.pcs :: (r in w.pcs && w.pcs[r] == v.pcs[r]) || Grantless(v.pcs[r]))
    && (forall h | Live(v.db.refresh, h) :: Live(w.db.refresh, h))
  }

  lemma BatonShrinks(w: World, v: World)
    requires BatonOk(w) && NoNewHolders(w, v)
    ensures BatonOk(v)
  {
    forall x, g | Holds(v.db.codes, v.pcs, v.db.refresh, v.past.lineage, x, g)
      ensures Holds(w.db.codes, w.pcs, w.db.refresh, w.past.lineage, x, g) {}
    forall x, g | Unfunded(v.db.codes, v.pcs, x, g) ensures Unfunded(w.db.codes, w.pcs, x, g) {}
    forall r, p | Replacing(v.pcs, r, p) ensures Replacing(w.pcs, r, p) {}
  }

  /** `from` hands the grant over to `to`; everybody else keeps what they hold. */
  ghost predicate HandsOver(w: World, v: World, from: Holder, to: Holder) {
    forall x, g | Holds(v.db.codes, v.pcs, v.db.refresh, v.past.lineage, x, g) ::
      if x == to then Holds(w.db.codes, w.pcs, w.db.refresh, w.past.lineage, from, g)
      else x != from && Holds(w.db.codes, w.pcs, w.db.refresh, w.past.lineage, x, g)
  }

  lemma BatonMoves(w: World, v: World, from: Holder, to: Holder)
    requires OneHolder(w.db.codes, w.pcs, w.db.refresh, w.past.lineage)
    requires HandsOver(w, v, from, to)
    ensures OneHolder(v.db.codes, v.pcs, v.db.refresh, v.past.lineage)
  {
    forall x, y, g | Holds(v.db.codes, v.pcs, v.db.refresh, v.past.lineage, x, g)
                     && Holds(v.db.codes, v.pcs, v.db.refresh, v.past.lineage, y, g)
      ensures x == y
    {
      var x0 := if x == to then from else x;
      var y0 := if y == to then from else y;
      assert Holds(w.db.codes, w.pcs, w.db.refresh, w.past.lineage, x0, g)
          && Holds(w.db.codes, w.pcs, w.db.refresh, w.past.lineage, y0, g);
    }
  }

  ghost predicate NoNewActive(w: World, v: World) {
    && (forall c, u, k | ActiveFor(v.db.conns, c, u, k) :: ActiveFor(w.db.conns, c, u, k))
    && (forall r <- v.pcs :: v.pcs[r].NoConnection? ==> r in w.pcs && w.pcs[r] == v.pcs[r])
  }

  lemma ActiveShrinks(w: World, v: World)
    requires OneActive(w.db.conns, w.pcs) && NoNewActive(w, v)
    ensures OneActive(v.db.conns, v.pcs)
  {
  }

  // ---- ending and starting requests ----

  lemma FinishKeeps(w: World, r: RequestId)
    requires Inv(w)
    ensures Inv(Finish(w, r))
  {
    BatonShrinks(w, Finish(w, r));
    ActiveShrinks(w, Finish(w, r));
  }

  /** A request may always move to a step that works for no grant. */
  lemma GrantlessKeeps(w: World, r: RequestId, pc: Pc)
    requires Inv(w) && Grantless(pc) && PcOk(pc, w.past.approvals, w.past.created, w.past.lineage)
    requires r in w.pcs ==> !Critical(w.pcs[r])
    ensures Inv(Advance(w, r, pc))
  {
    BatonShrinks(w, Advance(w, r, pc));
    ActiveShrinks(w, Advance(w, r, pc));
  }

  lemma BeginExchangeKeeps(w: World, r: RequestId, h: Digest, k: ClientId)
    requires Inv(w)
    ensures Inv(StepBeginExchange(w, r, h, k))
  {
    var row := LoadCode(w.db, k, h, w.now);
    if row.Some? && r !in w.pcs {
      GrantlessKeeps(w, r, CodeLoaded(h, k, row.value.userId));
    }
  }

  lemma BeginRefreshKeeps(w: World, r: RequestId, h: Digest, k: ClientId)
    requires Inv(w)
    ensures Inv(StepBeginRefresh(w, r, h, k))
  {
    if r !in w.pcs { GrantlessKeeps(w, r, RefreshLoaded(h)); }
  }

  lemma BeginRevokeTokenKeeps(w: World, r: RequestId, h: Digest)
    requires Inv(w)
    ensures Inv(StepBeginRevokeToken(w, r, h))
  {
    var c := TokenConnection(w.db, h);
    if c.Some? && r !in w.pcs {
      assert c.value in w.db.conns;
      GrantlessKeeps(w, r, Revoking(c.value));
    }
  }

  // ---- registration, consent, personal tokens, time ----

  lemma TickKeeps(w: World, later: Time)
    requires Inv(w) && w.now <= later
    ensures Inv(w.(now := later))
  {
  }

  lemma AddUserKeeps(w: World, u: UserId, email: string)
    requires Inv(w) && u !in w.db.users
    ensures Inv(w.(db := w.db.(users := w.db.users[u := email])))
  {
  }

  lemma RegisterKeeps(w: World, k: ClientId)
    requires Inv(w)
    ensures Inv(StepRegister(w, k))
  {
  }

  lemma AuthorizeKeeps(w: World, k: ClientId, id: CodeId)
    requires Inv(w)
    ensures Inv(w.(db := After(w.db, Authorize(w.db, k, id, w.now))))
  {
    BatonShrinks(w, w.(db := After(w.db, Authorize(w.db, k, id, w.now))));
  }

  lemma DenyKeeps(w: World, id: CodeId)
    requires Inv(w)
    ensures Inv(w.(db := After(w.db, DenyConsent(w.db, id, w.now))))
  {
    BatonShrinks(w, w.(db := After(w.db, DenyConsent(w.db, id, w.now))));
  }

  // ---- histories only grow ----

  ghost predicate Extends<K(!new), V(!new)>(m: map<K, V>, n: map<K, V>) {
    forall k <- m :: k in n && n[k] == m[k]
  }

  lemma PcsGrow(pcs: Pcs, a: Approvals, c: Created, l: Lineages, a': Approvals, c': Created, l': Lineages)
    requires PcsOk(pcs, a, c, l) && Extends(a, a') && Extends(c, c') && Extends(l, l')
    ensures PcsOk(pcs, a', c', l')
  {
    forall r | r in pcs ensures PcOk(pcs[r], a', c', l') {
      assert PcOk(pcs[r], a, c, l);
    }
  }

  lemma LineageGrows(l: Lineages, a: Approvals, c: Created, a': Approvals, c': Created)
    requires LineageOk(l, a, c) && Extends(a, a') && Extends(c, c')
    ensures LineageOk(l, a', c')
  {
  }

  lemma AccessGrows(t: map<Digest, AccessRow>, o: map<Digest, Digest>, a: Approvals, c: Created,
                    o': map<Digest, Digest>, a': Approvals, c': Created)
    requires AccessOk(t, o, a, c) && Extends(o, o') && Extends(a, a') && Extends(c, c')
    ensures AccessOk(t, o', a', c')
  {
  }

  lemma ConsentGrows(codes: Codes, a: Approvals, a': Approvals)
    requires ConsentOk(codes, a) && Extends(a, a')
    ensures ConsentOk(codes, a')
  {
    forall i | i in codes ensures ConsentRow(codes[i], a') { assert ConsentRow(codes[i], a); }
  }

  lemma PersonalTokenKeeps(w: World, c: ConnId, u: UserId, t: Token, expires: Time)
    requires Inv(w)
    ensures Inv(StepPersonalToken(w, c, u, t, expires))
  {
    var v := StepPersonalToken(w, c, u, t, expires);
    if v != w {
      PcsGrow(w.pcs, w.past.approvals, w.past.created, w.past.lineage, v.past.approvals, v.past.created,
              v.past.lineage);
      LineageGrows(w.past.lineage, w.past.approvals, w.past.created, v.past.approvals, v.past.created);
      AccessGrows(w.db.access, w.past.origin, w.past.approvals, w.past.created, v.past.origin, v.past.approvals,
                  v.past.created);
      ActiveShrinks(w, v);
    }
  }

  /** A fresh code is held by nobody yet. */
  lemma FreshGrant(w: World, x: Holder, g: Digest)
    requires RecordsOk(w) && g !in w.past.drawn
    ensures !Holds(w.db.codes, w.pcs, w.db.refresh, w.past.lineage, x, g)
    ensures forall d :: !Root(w.past.lineage, d, g)
  {
  }

  lemma ApproveRecords(w: World, id: CodeId, u: UserId, t: Token)
    requires Inv(w)
    ensures RecordsOk(StepApprove(w, id, u, t))
  {
    var v := StepApprove(w, id, u, t);
    if v != w {
      PcsGrow(w.pcs, w.past.approvals, w.past.created, w.past.lineage, v.past.approvals, v.past.created,
              v.past.lineage);
      LineageGrows(w.past.lineage, w.past.approvals, w.past.created, v.past.approvals, v.past.created);
      AccessGrows(w.db.access, w.past.origin, w.past.approvals, w.past.created, v.past.origin, v.past.approvals,
                  v.past.created);
      ConsentGrows(w.db.codes, w.past.approvals, v.past.approvals);
    }
  }

  lemma ApproveKeeps(w: World, id: CodeId, u: UserId, t: Token)
    requires Inv(w)
    ensures Inv(StepApprove(w, id, u, t))
  {
    ApproveRecords(w, id, u, t);
    var v := StepApprove(w, id, u, t);
    if v != w {
      var g := Sha256(t);
      forall x | Holds(v.db.codes, v.pcs, v.db.refresh, v.past.lineage, x, g) ensures x == ByCode(id) {
        FreshGrant(w, x, g);
      }
      forall x, h | h != g && Holds(v.db.codes, v.pcs, v.db.refresh, v.past.lineage, x, h)
        ensures Holds(w.db.codes, w.pcs, w.db.refresh, w.past.lineage, x, h) {}
      FreshGrant(w, ByCode(id), g);
      forall x, h | h != g && Unfunded(v.db.codes, v.pcs, x, h)
        ensures Unfunded(w.db.codes, w.pcs, x, h) {}
    }
  }

  // ---- the code exchange ----

  lemma ConsumeKeeps(w: World, r: RequestId)
    requires Inv(w) && r in w.pcs && w.pcs[r].CodeLoaded?
    ensures Inv(StepConsume(w, r, w.pcs[r]))
  {
    var v := StepConsume(w, r, w.pcs[r]);
    var found := FindCode(w.db, w.pcs[r].code);
    FinishKeeps(w, r);
    if found.Some? {
      BatonMoves(w, v, ByCode(found.value), ByRequest(r));
      forall x, g | Unfunded(v.db.codes, v.pcs, x, g)
        ensures exists y :: Unfunded(w.db.codes, w.pcs, y, g)
      {
        assert Unfunded(w.db.codes, w.pcs, if x == ByRequest(r) then ByCode(found.value) else x, g);
      }
      forall q, p | Replacing(v.pcs, q, p) ensures Replacing(w.pcs, q, p) {}
      ActiveShrinks(w, v);
    }
  }

  /** A request may change step without changing what it holds. */
  lemma SameGrantKeeps(w: World, v: World, r: RequestId)
    requires BatonOk(w) && r in w.pcs && r in v.pcs
    requires v.db.codes == w.db.codes && v.db.refresh == w.db.refresh && v.past.lineage == w.past.lineage
    requires forall q | q != r :: q in v.pcs <==> q in w.pcs
    requires forall q <- v.pcs :: q != r ==> v.pcs[q] == w.pcs[q]
    requires forall g :: Carries(v.pcs[r], g) ==> Carries(w.pcs[r], g)
    requires !w.pcs[r].Issuing? && (v.pcs[r].Issuing? ==> v.pcs[r].parent.None?)
    ensures BatonOk(v)
  {
    forall x, g | Holds(v.db.codes, v.pcs, v.db.refresh, v.past.lineage, x, g)
      ensures Holds(w.db.codes, w.pcs, w.db.refresh, w.past.lineage, x, g) {}
    forall x, g | Unfunded(v.db.codes, v.pcs, x, g) ensures Unfunded(w.db.codes, w.pcs, x, g) {}
    forall q, p | Replacing(v.pcs, q, p) ensures Replacing(w.pcs, q, p) {}
  }

  lemma AcquireLockKeeps(w: World, r: RequestId)
    requires Inv(w) && r in w.pcs && w.pcs[r].CodeConsumed?
    ensures Inv(StepAcquireLock(w, r, w.pcs[r]))
  {
    var v := StepAcquireLock(w, r, w.pcs[r]);
    if v != w {
      SameGrantKeeps(w, v, r);
      ActiveShrinks(w, v);
    }
  }

  lemma FindActiveMeaning(db: Db, u: UserId, k: ClientId)
    ensures FindActive(db, u, k).NoRow? <==> !exists c :: ActiveFor(db.conns, c, u, k)
    ensures FindActive(db, u, k).OneRow? ==> ActiveFor(db.conns, FindActive(db, u, k).id, u, k)
  {
  }

  lemma SelectConnectionKeeps(w: World, r: RequestId)
    requires Inv(w) && r in w.pcs && w.pcs[r].LockHeld?
    ensures Inv(StepSelectConnection(w, r, w.pcs[r]))
  {
    var pc := w.pcs[r];
    var v := StepSelectConnection(w, r, pc);
    FinishKeeps(w, r);
    FindActiveMeaning(w.db, pc.user, pc.client);
    match FindActive(w.db, pc.user, pc.client) {
      case NoRow =>
        SameGrantKeeps(w, v, r);
      case OneRow(c) =>
        SameGrantKeeps(w, v, r);
        ActiveShrinks(w, v);
        assert PcOk(v.pcs[r], v.past.approvals, v.past.created, v.past.lineage);
      case MultipleRows =>
    }
  }

  ghost predicate Creates(w: World, r: RequestId, c: ConnId) {
    && r in w.pcs && w.pcs[r].NoConnection? && c !in w.past.created
    && InsertConnection(w.db, c, w.pcs[r].user, w.pcs[r].client).Commit?
  }

  lemma PcsAdvance(pcs: Pcs, r: RequestId, pc: Pc, a: Approvals, c: Created, l: Lineages)
    requires PcsOk(pcs, a, c, l) && PcOk(pc, a, c, l)
    ensures PcsOk((pcs - {r})[r := pc], a, c, l)
  {
  }

  lemma CreateConnectionPcs(w: World, r: RequestId, c: ConnId)
    requires RecordsOk(w) && Creates(w, r, c)
    ensures var v := StepCreateConnection(w, r, w.pcs[r], c);
            PcsOk(v.pcs, v.past.approvals, v.past.created, v.past.lineage)
  {
    var pc := w.pcs[r];
    var v := StepCreateConnection(w, r, pc, c);
    assert PcOk(pc, w.past.approvals, w.past.created, w.past.lineage);
    PcsGrow(w.pcs, w.past.approvals, w.past.created, w.past.lineage, v.past.approvals, v.past.created, v.past.lineage);
    PcsAdvance(w.pcs, r, Issuing(pc.grant, None, c, pc.client), v.past.approvals, v.past.created, v.past.lineage);
  }

  lemma CreateConnectionRecords(w: World, r: RequestId, c: ConnId)
    requires RecordsOk(w) && Creates(w, r, c)
    ensures RecordsOk(StepCreateConnection(w, r, w.pcs[r], c))
  {
    var v := StepCreateConnection(w, r, w.pcs[r], c);
    CreateConnectionPcs(w, r, c);
    LineageGrows(w.past.lineage, w.past.approvals, w.past.created, v.past.approvals, v.past.created);
    AccessGrows(w.db.access, w.past.origin, w.past.approvals, w.past.created, v.past.origin, v.past.approvals,
                v.past.created);
    assert CredentialKeys(v.db);
    assert ConnsKnown(v.db.conns, v.past.created, v.past.revoked);
  }

  /** The lock makes SELECT and INSERT safe: the holder is the only one about to insert for its key. */
  lemma CreateConnectionActive(w: World, r: RequestId, c: ConnId)
    requires ConcurrencyOk(w) && RecordsOk(w) && Creates(w, r, c)
    ensures var v := StepCreateConnection(w, r, w.pcs[r], c); OneActive(v.db.conns, v.pcs)
  {
    var pc := w.pcs[r];
    var v := StepCreateConnection(w, r, pc, c);
    forall d, u, k | ActiveFor(v.db.conns, d, u, k)
      ensures ActiveFor(w.db.conns, d, u, k) || (d == c && u == pc.user && k == pc.client) {}
    forall q, d | q in v.pcs && v.pcs[q].NoConnection?
      ensures !ActiveFor(v.db.conns, d, v.pcs[q].user, v.pcs[q].client)
    {
      assert q != r && w.pcs[q] == v.pcs[q];
      assert HoldsLock(w.locks, q, w.pcs[q].user, w.pcs[q].client);
      assert HoldsLock(w.locks, r, pc.user, pc.client);
    }
  }

  /** Leaving the critical section gives back the one lock the request held. */
  lemma ReleaseLocks(w: World, r: RequestId, pc: Pc)
    requires LocksOk(w.pcs, w.locks) && !Critical(pc)
    ensures LocksOk(ReleaseAnd(w, r, pc).pcs, ReleaseAnd(w, r, pc).locks)
  {
  }

  lemma CreateConnectionKeeps(w: World, r: RequestId, c: ConnId)
    requires Inv(w) && r in w.pcs && w.pcs[r].NoConnection?
    ensures Inv(StepCreateConnection(w, r, w.pcs[r], c))
  {
    if Creates(w, r, c) {
      CreateConnectionRecords(w, r, c);
      CreateConnectionActive(w, r, c);
      ReleaseLocks(w, r, Issuing(w.pcs[r].grant, None, c, w.pcs[r].client));
      SameGrantKeeps(w, StepCreateConnection(w, r, w.pcs[r], c), r);
    } else {
      FinishKeeps(w, r);
    }
  }

  // ---- issuing ----

  ghost predicate Issues(w: World, r: RequestId, a: Token, f: Token) {
    && r in w.pcs && w.pcs[r].Issuing?
    && Sha256(a) !in w.past.drawn && Sha256(f) !in w.past.drawn && Sha256(a) != Sha256(f)
    && IssueTokens(w.db, w.pcs[r].conn, w.pcs[r].client, Sha256(a), Sha256(f), w.now).Commit?
  }

  lemma MintedGrows(l: Lineages, approvals: Approvals, created: Created, minted: Digest, row: Lineage)
    requires LineageOk(l, approvals, created) && minted !in l
    requires Authorized(approvals, created, row.grant, row.conn) && ParentOk(l, row.parent, row.grant, row.conn)
    requires row.generation == Generation(l, row.parent)
    ensures LineageOk(l[minted := row], approvals, created)
  {
    forall d | d in l ensures Generation(l[minted := row], l[d].parent) == Generation(l, l[d].parent) {
      assert ParentOk(l, l[d].parent, l[d].grant, l[d].conn);
    }
  }

  lemma IssueRecords(w: World, r: RequestId, a: Token, f: Token)
    requires Inv(w) && Issues(w, r, a, f)
    ensures RecordsOk(StepIssue(w, r, w.pcs[r], a, f))
  {
    var pc := w.pcs[r];
    var v := StepIssue(w, r, pc, a, f);
    var minted := Sha256(f);
    assert PcOk(pc, w.past.approvals, w.past.created, w.past.lineage);
    assert minted !in w.past.lineage;
    PcsGrow(w.pcs, w.past.approvals, w.past.created, w.past.lineage, v.past.approvals, v.past.created, v.past.lineage);
    AccessGrows(w.db.access, w.past.origin, w.past.approvals, w.past.created, v.past.origin, v.past.approvals,
                v.past.created);
    MintedGrows(w.past.lineage, w.past.approvals, w.past.created, minted, v.past.lineage[minted]);
  }

  /** Tokens named as parents, stored or in flight, were issued earlier. */
  lemma ParentsKnown(w: World)
    requires RecordsOk(w)
    ensures forall d, p | Child(w.past.lineage, d, p) :: p in w.past.lineage
    ensures forall q, p | Replacing(w.pcs, q, p) ::
      p in w.past.lineage && q in w.pcs && w.pcs[q].Issuing? && w.past.lineage[p].grant == w.pcs[q].grant
  {
    forall d, p | Child(w.past.lineage, d, p) ensures p in w.past.lineage {
      assert ParentOk(w.past.lineage, Some(p), w.past.lineage[d].grant, w.past.lineage[d].conn);
    }
    forall q, p | Replacing(w.pcs, q, p)
      ensures p in w.past.lineage && w.past.lineage[p].grant == w.pcs[q].grant
    {
      assert PcOk(w.pcs[q], w.past.approvals, w.past.created, w.past.lineage);
    }
  }

  lemma IssueHolder(w: World, r: RequestId, a: Token, f: Token)
    requires Inv(w) && Issues(w, r, a, f)
    ensures var v := StepIssue(w, r, w.pcs[r], a, f);
            OneHolder(v.db.codes, v.pcs, v.db.refresh, v.past.lineage)
  {
    var v := StepIssue(w, r, w.pcs[r], a, f);
    assert Sha256(f) !in w.past.lineage && Sha256(f) !in w.db.refresh;
    BatonMoves(w, v, ByRequest(r), ByToken(Sha256(f)));
  }

  lemma IssueBaton(w: World, r: RequestId, a: Token, f: Token)
    requires Inv(w) && Issues(w, r, a, f)
    ensures BatonOk(StepIssue(w, r, w.pcs[r], a, f))
  {
    var pc := w.pcs[r];
    var v := StepIssue(w, r, pc, a, f);
    var minted := Sha256(f);
    IssueHolder(w, r, a, f);
    ParentsKnown(w);
    forall x, g | Unfunded(v.db.codes, v.pcs, x, g) ensures Unfunded(w.db.codes, w.pcs, x, g) && x != ByRequest(r) {}
    forall d, g | Root(v.past.lineage, d, g)
      ensures Root(w.past.lineage, d, g)
          || (d == minted && g == pc.grant && Unfunded(w.db.codes, w.pcs, ByRequest(r), g)) {}
    IssueFunded(w, v, r, minted);
    IssueSuccessor(w, v, r, minted);
  }

  lemma IssueFunded(w: World, v: World, r: RequestId, minted: Digest)
    requires BatonOk(w)
    requires r in w.pcs && w.pcs[r].Issuing?
    requires forall x, g | Unfunded(v.db.codes, v.pcs, x, g) :: Unfunded(w.db.codes, w.pcs, x, g) && x != ByRequest(r)
    requires forall d, g | Root(v.past.lineage, d, g) ::
      Root(w.past.lineage, d, g) || (d == minted && g == w.pcs[r].grant && Unfunded(w.db.codes, w.pcs, ByRequest(r), g))
    ensures FundedOnce(v.db.codes, v.pcs, v.past.lineage)
  {
    forall x, g, d | Unfunded(v.db.codes, v.pcs, x, g) ensures !Root(v.past.lineage, d, g) {
      if Root(v.past.lineage, d, g) && !Root(w.past.lineage, d, g) {
        assert Holds(w.db.codes, w.pcs, w.db.refresh, w.past.lineage, x, g);
        assert Holds(w.db.codes, w.pcs, w.db.refresh, w.past.lineage, ByRequest(r), g);
      }
    }
  }

  lemma IssueSuccessor(w: World, v: World, r: RequestId, minted: Digest)
    requires BatonOk(w)
    requires r in w.pcs && w.pcs[r].Issuing?
    requires minted !in w.past.lineage && minted in v.past.lineage
    requires v.past.lineage == w.past.lineage[minted := v.past.lineage[minted]]
    requires v.past.lineage[minted].parent == w.pcs[r].parent
    requires v.pcs == w.pcs - {r}
    requires forall h | Live(v.db.refresh, h) :: h == minted || Live(w.db.refresh, h)
    requires forall d, p | Child(w.past.lineage, d, p) :: p != minted
    requires forall q, p | Replacing(w.pcs, q, p) :: p != minted
    requires OneHolder(w.db.codes, w.pcs, w.db.refresh, w.past.lineage)
    requires forall q, p | Replacing(w.pcs, q, p) ::
      p in w.past.lineage && q in w.pcs && w.pcs[q].Issuing? && w.past.lineage[p].grant == w.pcs[q].grant
    ensures OneSuccessor(v.past.lineage, v.pcs, v.db.refresh)
  {
    forall d, p | Child(v.past.lineage, d, p)
      ensures Child(w.past.lineage, d, p) || (d == minted && Replacing(w.pcs, r, p)) {}
    forall q, p | Replacing(v.pcs, q, p) ensures Replacing(w.pcs, q, p) && q != r {}
    forall q, p | Replacing(w.pcs, q, p) && Replacing(w.pcs, r, p) ensures q == r {
      var g := w.past.lineage[p].grant;
      assert Holds(w.db.codes, w.pcs, w.db.refresh, w.past.lineage, ByRequest(q), g);
      assert Holds(w.db.codes, w.pcs, w.db.refresh, w.past.lineage, ByRequest(r), g);
    }
  }

  lemma IssueKeeps(w: World, r: RequestId, a: Token, f: Token)
    requires Inv(w) && r in w.pcs && w.pcs[r].Issuing?
    ensures Inv(StepIssue(w, r, w.pcs[r], a, f))
  {
    FinishKeeps(w, r);
    if Issues(w, r, a, f) {
      IssueRecords(w, r, a, f);
      IssueBaton(w, r, a, f);
    }
  }

  // ---- rotation and revocation ----

  lemma RotateHolder(w: World, r: RequestId)
    requires Inv(w) && r in w.pcs && w.pcs[r].RefreshLoaded?
    requires Live(w.db.refresh, w.pcs[r].token) && w.pcs[r].token in w.past.lineage
    ensures var v := StepRotate(w, r, w.pcs[r]); OneHolder(v.db.codes, v.pcs, v.db.refresh, v.past.lineage)
  {
    BatonMoves(w, StepRotate(w, r, w.pcs[r]), ByToken(w.pcs[r].token), ByRequest(r));
  }

  lemma RotateBaton(w: World, r: RequestId)
    requires Inv(w) && r in w.pcs && w.pcs[r].RefreshLoaded?
    requires Live(w.db.refresh, w.pcs[r].token) && w.pcs[r].token in w.past.lineage
    ensures BatonOk(StepRotate(w, r, w.pcs[r]))
  {
    var h := w.pcs[r].token;
    var v := StepRotate(w, r, w.pcs[r]);
    RotateHolder(w, r);
    forall x, g | Unfunded(v.db.codes, v.pcs, x, g) ensures Unfunded(w.db.codes, w.pcs, x, g) {}
    forall q, p | Replacing(v.pcs, q, p) ensures (q == r && p == h) || Replacing(w.pcs, q, p) {}
    forall q | Live(v.db.refresh, q) ensures Live(w.db.refresh, q) && q != h {}
  }

  lemma RotateRecords(w: World, r: RequestId)
    requires RecordsOk(w) && r in w.pcs && w.pcs[r].RefreshLoaded?
    requires Live(w.db.refresh, w.pcs[r].token) && w.pcs[r].token in w.past.lineage
    ensures RecordsOk(StepRotate(w, r, w.pcs[r]))
  {
    var v := StepRotate(w, r, w.pcs[r]);
    assert v.pcs == (w.pcs - {r})[r := v.pcs[r]];
    assert PcOk(v.pcs[r], w.past.approvals, w.past.created, w.past.lineage);
    PcsAdvance(w.pcs, r, v.pcs[r], w.past.approvals, w.past.created, w.past.lineage);
    assert RefreshOk(v.db.refresh, w.past.lineage, w.past.approvals);
    assert CredentialKeys(v.db);
  }

  lemma RotateConcurrency(w: World, r: RequestId)
    requires ConcurrencyOk(w) && r in w.pcs && w.pcs[r].RefreshLoaded?
    requires Live(w.db.refresh, w.pcs[r].token) && w.pcs[r].token in w.past.lineage
    ensures ConcurrencyOk(StepRotate(w, r, w.pcs[r]))
  {
    ActiveShrinks(w, StepRotate(w, r, w.pcs[r]));
  }

  lemma RotateKeeps(w: World, r: RequestId)
    requires Inv(w) && r in w.pcs && w.pcs[r].RefreshLoaded?
    ensures Inv(StepRotate(w, r, w.pcs[r]))
  {
    var h := w.pcs[r].token;
    if h !in w.db.refresh {
      FinishKeeps(w, r);
    } else if IsRotatedAway(w.db, h) {
      GrantlessKeeps(w, r, Revoking(w.db.refresh[h].connectionId));
    } else {
      RotateRecords(w, r);
      RotateConcurrency(w, r);
      RotateBaton(w, r);
    }
  }

  lemma RevokeTables(db: Db, c: ConnId, now: Time)
    requires CredentialKeys(db)
    ensures CredentialKeys(RevokeConnection(db, c, now))
  {
  }

  function Revoked(w: World, c: ConnId): World {
    w.(db := RevokeConnection(w.db, c, w.now),
       past := w.past.(revoked := w.past.revoked + if c in w.db.conns then {c} else {}))
  }

  lemma RevokeRecords(w: World, c: ConnId)
    requires RecordsOk(w)
    ensures RecordsOk(Revoked(w, c))
  {
    RevokeTables(w.db, c, w.now);
    var v := Revoked(w, c);
    assert ConnsKnown(v.db.conns, v.past.created, v.past.revoked);
    assert RefreshOk(v.db.refresh, v.past.lineage, v.past.approvals);
    assert AccessOk(v.db.access, v.past.origin, v.past.approvals, v.past.created);
  }

  lemma RevokeInv(w: World, c: ConnId)
    requires Inv(w)
    ensures Inv(Revoked(w, c))
  {
    RevokeRecords(w, c);
    BatonShrinks(w, Revoked(w, c));
    ActiveShrinks(w, Revoked(w, c));
  }

  lemma RevokeKeeps(w: World, r: RequestId)
    requires Inv(w) && r in w.pcs && w.pcs[r].Revoking?
    ensures Inv(StepFinishRevoke(w, r, w.pcs[r]))
  {
    var u := Finish(w, r);
    FinishKeeps(w, r);
    RevokeInv(u, w.pcs[r].conn);
    assert StepFinishRevoke(w, r, w.pcs[r]) == Revoked(u, w.pcs[r].conn);
  }

  lemma DeleteConnectionTables(db: Db, c: ConnId)
    requires CredentialKeys(db)
    ensures CredentialKeys(After(db, DeleteConnection(db, c)))
  {
  }

  lemma RemoveConnectionRecords(w: World, c: ConnId)
    requires RecordsOk(w) && DeleteConnection(w.db, c).Commit?
    ensures RecordsOk(w.(db := DeleteConnection(w.db, c).db))
  {
    DeleteConnectionTables(w.db, c);
    var d := DeleteConnection(w.db, c).db;
    assert ConnsKnown(d.conns, w.past.created, w.past.revoked);
    assert RefreshOk(d.refresh, w.past.lineage, w.past.approvals);
    assert AccessOk(d.access, w.past.origin, w.past.approvals, w.past.created);
  }

  lemma RemoveConnectionKeeps(w: World, c: ConnId)
    requires Inv(w)
    ensures Inv(w.(db := After(w.db, DeleteConnection(w.db, c))))
  {
    if DeleteConnection(w.db, c).Commit? {
      var v := w.(db := DeleteConnection(w.db, c).db);
      RemoveConnectionRecords(w, c);
      BatonShrinks(w, v);
      ActiveShrinks(w, v);
    }
  }

  /** No client is swept while a connection, a code or a refresh token refers to it. */
  lemma SweepTables(db: Db, now: Time)
    requires CredentialKeys(db)
    ensures CredentialKeys(Sweep(db, now))
  {
    SweepConns(db, now);
    var swept := WithoutExpired(db, now);
    forall i | i in swept.codes ensures ClientInUse(swept, swept.codes[i].clientId) {}
    forall h | h in swept.refresh ensures ClientInUse(swept, swept.refresh[h].clientId) {}
    SweepSpares(db, now);
  }

  lemma SweepSpares(db: Db, now: Time)
    ensures forall k | k in db.clients && ClientInUse(WithoutExpired(db, now), k) :: k in Sweep(db, now).clients
  {
  }

  lemma SweepConns(db: Db, now: Time)
    requires ConnsRefer(db.conns, db.clients, db.users)
    ensures ConnsRefer(db.conns, Sweep(db, now).clients, db.users)
  {
    SweepSpares(db, now);
    forall c | c in db.conns && db.conns[c].clientId.Some?
      ensures ClientInUse(WithoutExpired(db, now), db.conns[c].clientId.value) {}
  }

  lemma SweepRecords(w: World)
    requires RecordsOk(w)
    ensures RecordsOk(w.(db := Sweep(w.db, w.now)))
  {
    var v := w.(db := Sweep(w.db, w.now));
    SweepTables(w.db, w.now);
    assert RefreshOk(v.db.refresh, w.past.lineage, w.past.approvals);
    assert ConsentOk(v.db.codes, w.past.approvals);
    assert ClientsAge(v.db.clients, w.past.registered, w.now);
  }

  lemma SweepKeeps(w: World)
    requires Inv(w)
    ensures Inv(w.(db := Sweep(w.db, w.now)))
  {
    SweepRecords(w);
    BatonShrinks(w, w.(db := Sweep(w.db, w.now)));
  }
}
