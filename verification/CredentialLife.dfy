/** What ends a credential, and that nothing else does: over every interleaving, whoever holds an unexpired token,
    code or registration keeps it until the one event that is meant to take it away. */
module CredentialLife {
  import opened Basics
  import opened Schema
  import opened Content
  import opened OAuth
  import opened OAuthRuns
  import opened OAuthInvariant
  import opened Lifetimes
  import OAuthGuarantees

  // ---- the events that are meant to change a row ----

  predicate Revokes(w: World, e: Event, c: ConnId) {
    e.FinishRevoke? && e.r in w.pcs && w.pcs[e.r] == Revoking(c)
  }

  predicate Removes(w: World, e: Event, c: ConnId) {
    e.RemoveConnection? && e.c == c && c in w.db.conns && w.db.conns[c].revokedAt.Some?
  }

  predicate Rotates(w: World, e: Event, t: Digest) {
    e.Rotate? && e.r in w.pcs && w.pcs[e.r] == RefreshLoaded(t)
  }

  predicate Consumes(w: World, e: Event, h: Option<Digest>) {
    e.Consume? && e.r in w.pcs && w.pcs[e.r].CodeLoaded? && Some(w.pcs[e.r].code) == h
  }

  // ---- one event ----

  /** A connection row changes only when that connection is revoked, and goes only when it is removed. */
  ghost predicate ConnsStay(w: World, e: Event) {
    var v := Next(w, e);
    forall c <- w.db.conns :: !Revokes(w, e, c) && !Removes(w, e, c) ==>
      c in v.db.conns && v.db.conns[c] == w.db.conns[c]
  }

  /** An access token row goes only with its connection. */
  ghost predicate AccessStays(w: World, e: Event) {
    var v := Next(w, e);
    forall t <- w.db.access ::
      !Revokes(w, e, w.db.access[t].connectionId) && !Removes(w, e, w.db.access[t].connectionId) ==>
      t in v.db.access && v.db.access[t] == w.db.access[t]
  }

  /** A refresh token row is marked only by its own rotation or its connection's revocation, and goes only when it
      has expired or its connection is removed. */
  ghost predicate RefreshStays(w: World, e: Event) {
    var v := Next(w, e);
    forall t <- w.db.refresh ::
      var row := w.db.refresh[t];
      && (t !in v.db.refresh ==> (e.SweepRows? && row.expiresAt <= w.now) || Removes(w, e, row.connectionId))
      && (t in v.db.refresh && v.db.refresh[t] != row ==>
            && v.db.refresh[t] == row.(revokedAt := Some(w.now))
            && (Rotates(w, e, t) || (Revokes(w, e, row.connectionId) && row.revokedAt.None?)))
  }

  /** An authorization request changes only by being approved, and goes only when it is denied, spent or expired. */
  ghost predicate CodesStay(w: World, e: Event) {
    var v := Next(w, e);
    forall i <- w.db.codes ::
      var row := w.db.codes[i];
      && (i !in v.db.codes ==>
            || (e.SweepRows? && row.expiresAt <= w.now) || (e.Deny? && e.code == i && !row.approved)
            || Consumes(w, e, row.codeHash))
      && (i in v.db.codes && v.db.codes[i] != row ==>
            e.Approve? && e.code == i && !row.approved
            && v.db.codes[i] == CodeRow(row.clientId, Some(e.u), Some(Sha256(e.t)), true, row.expiresAt))
  }

  /** A registration goes only by the sweep, thirty days old and with nothing left that names it; an account never. */
  ghost predicate ClientsStay(w: World, e: Event) {
    var v := Next(w, e);
    && (forall k <- w.db.clients ::
          if k in v.db.clients then v.db.clients[k] == w.db.clients[k]
          else e.SweepRows? && w.db.clients[k].createdAt + 30 * DAY <= w.now && Unnamed(v.db, k))
    && (forall u <- w.db.users :: u in v.db.users && v.db.users[u] == w.db.users[u])
  }

  /** No connection, authorization request or refresh token names the client. */
  ghost predicate Unnamed(db: Db, k: ClientId) {
    && (forall c <- db.conns :: db.conns[c].clientId != Some(k))
    && (forall i <- db.codes :: db.codes[i].clientId != k)
    && (forall t <- db.refresh :: db.refresh[t].clientId != k)
  }

  /** Nothing but a content request touches what people publish, and no content request touches credentials. */
  ghost predicate ContentStays(w: World, e: Event) {
    var v := Next(w, e);
    if e.UseContent? then
      && v.db.users == w.db.users && v.db.clients == w.db.clients && v.db.codes == w.db.codes
      && v.db.conns == w.db.conns && v.db.access == w.db.access && v.db.refresh == w.db.refresh
    else
      && v.db.artifacts == w.db.artifacts && v.db.versions == w.db.versions
      && v.db.comments == w.db.comments && v.db.shares == w.db.shares
  }

  ghost predicate RowsStay(w: World, e: Event) {
    && ConnsStay(w, e) && AccessStays(w, e) && RefreshStays(w, e) && CodesStay(w, e) && ClientsStay(w, e)
    && ContentStays(w, e)
  }

  /** Every credential row is still there, unchanged, and content is untouched. */
  ghost predicate OnlyAdds(w: World, v: World) {
    && (forall c <- w.db.conns :: c in v.db.conns && v.db.conns[c] == w.db.conns[c])
    && (forall t <- w.db.access :: t in v.db.access && v.db.access[t] == w.db.access[t])
    && (forall t <- w.db.refresh :: t in v.db.refresh && v.db.refresh[t] == w.db.refresh[t])
    && (forall i <- w.db.codes :: i in v.db.codes && v.db.codes[i] == w.db.codes[i])
    && (forall k <- w.db.clients :: k in v.db.clients && v.db.clients[k] == w.db.clients[k])
    && (forall u <- w.db.users :: u in v.db.users && v.db.users[u] == w.db.users[u])
    && v.db.artifacts == w.db.artifacts && v.db.versions == w.db.versions
    && v.db.comments == w.db.comments && v.db.shares == w.db.shares
  }

  lemma AddingStays(w: World, e: Event)
    requires OnlyAdds(w, Next(w, e)) && !e.UseContent?
    ensures RowsStay(w, e)
  {
  }

  lemma ConsentAdds(w: World, e: Event)
    requires IsConsent(e) && !e.Approve? && !e.Deny? && !e.NewPersonalToken?
    ensures OnlyAdds(w, Next(w, e))
  {
  }

  lemma PersonalTokenAdds(w: World, e: Event)
    requires e.NewPersonalToken?
    ensures OnlyAdds(w, Next(w, e))
  {
  }

  lemma ExchangeAdds(w: World, e: Event)
    requires e.BeginExchange? || e.AcquireLock? || e.SelectConnection?
    ensures OnlyAdds(w, Next(w, e))
  {
    assert Next(w, e).db == w.db;
  }

  lemma CreateConnectionAdds(w: World, e: Event)
    requires e.CreateConnection?
    ensures OnlyAdds(w, Next(w, e))
  {
  }

  lemma IssueAdds(w: World, e: Event)
    requires e.Issue?
    ensures OnlyAdds(w, Next(w, e))
  {
  }

  lemma BeginningAdds(w: World, e: Event)
    requires e.BeginRefresh? || e.BeginRevokeToken? || e.BeginRevokeConnection?
    ensures OnlyAdds(w, Next(w, e))
  {
    assert Next(w, e).db == w.db;
  }

  lemma AbandonAdds(w: World, e: Event)
    requires e.Abandon?
    ensures OnlyAdds(w, Next(w, e))
  {
  }

  lemma ApproveStays(w: World, e: Event)
    requires e.Approve?
    ensures RowsStay(w, e)
  {
  }

  lemma DenyStays(w: World, e: Event)
    requires e.Deny?
    ensures RowsStay(w, e)
  {
  }

  lemma ConsumeStays(w: World, e: Event)
    requires e.Consume?
    ensures RowsStay(w, e)
  {
  }

  lemma RotateStays(w: World, e: Event)
    requires e.Rotate?
    ensures RowsStay(w, e)
  {
  }

  lemma RevokeStays(w: World, e: Event)
    requires e.FinishRevoke?
    ensures RowsStay(w, e)
  {
  }

  lemma RemoveStays(w: World, e: Event)
    requires e.RemoveConnection?
    ensures RowsStay(w, e)
  {
  }

  lemma SweepStays(w: World, e: Event)
    requires e.SweepRows?
    ensures RowsStay(w, e)
  {
  }

  lemma UseContentStays(w: World, e: Event)
    requires e.UseContent?
    ensures RowsStay(w, e)
  {
    assert SparesCredentials(w.db, Perform(w.db, e.cfg, e.q));
  }

  /** One event of the server, in any state, changes no row but the ones it is meant to. */
  lemma RowsChangeOnlyAsMeant(w: World, e: Event)
    ensures RowsStay(w, e)
  {
    match e
    case Approve(_, _, _) => ApproveStays(w, e);
    case Deny(_) => DenyStays(w, e);
    case Consume(_) => ConsumeStays(w, e);
    case Rotate(_) => RotateStays(w, e);
    case FinishRevoke(_) => RevokeStays(w, e);
    case RemoveConnection(_) => RemoveStays(w, e);
    case SweepRows => SweepStays(w, e);
    case UseContent(_, _) => UseContentStays(w, e);
    case _ =>
      if e.NewPersonalToken? { PersonalTokenAdds(w, e); }
      else if e.Issue? { IssueAdds(w, e); }
      else if e.CreateConnection? { CreateConnectionAdds(w, e); }
      else if e.Abandon? { AbandonAdds(w, e); }
      else if IsConsent(e) { ConsentAdds(w, e); }
      else if IsExchange(e) { ExchangeAdds(w, e); }
      else { BeginningAdds(w, e); }
      AddingStays(w, e);
  }

  // ---- histories only grow ----

  ghost predicate PastGrows(w: World, v: World) {
    && w.now <= v.now && w.past.drawn <= v.past.drawn && w.past.revoked <= v.past.revoked
    && w.past.created.Keys <= v.past.created.Keys
  }

  lemma NextPastGrows(w: World, e: Event)
    ensures PastGrows(w, Next(w, e))
  {
  }

  // ---- access tokens, over runs ----

  /** Personal tokens were drawn too, and none is an access token. */
  ghost predicate Separate(w: World) {
    forall c <- w.db.conns :: w.db.conns[c].tokenHash.Some? ==>
      w.db.conns[c].tokenHash.value in w.past.drawn && w.db.conns[c].tokenHash.value !in w.db.access
  }

  lemma AccessWasDrawn(w: World)
    requires Inv(w)
    ensures forall t <- w.db.access :: t in w.past.drawn
  {
  }

  /** An event gives no connection a token hash that was drawn before. */
  lemma NewTokensAreFresh(w: World, e: Event)
    ensures forall c <- Next(w, e).db.conns :: Next(w, e).db.conns[c].tokenHash.Some? ==>
              || Next(w, e).db.conns[c].tokenHash.value !in w.past.drawn
              || (c in w.db.conns && w.db.conns[c].tokenHash == Next(w, e).db.conns[c].tokenHash)
    ensures forall t <- Next(w, e).db.access :: t in w.db.access || (e.Issue? && t !in w.past.drawn)
    ensures e.Issue? ==> Next(w, e).db.conns == w.db.conns
  {
  }

  lemma StaysSeparate(w: World, e: Event)
    requires Inv(w) && Separate(w)
    ensures Separate(Next(w, e))
  {
    AccessWasDrawn(w);
    NextPastGrows(w, e);
    NewTokensAreFresh(w, e);
    PersonalWasDrawn(w, e);
  }

  lemma PersonalWasDrawn(w: World, e: Event)
    requires Separate(w)
    ensures forall c <- Next(w, e).db.conns :: Next(w, e).db.conns[c].tokenHash.Some? ==>
              Next(w, e).db.conns[c].tokenHash.value in Next(w, e).past.drawn
  {
  }

  lemma {:induction false} RunStaysSeparate(w: World, events: seq<Event>)
    requires Inv(w) && Separate(w)
    ensures Inv(Run(w, events)) && Separate(Run(w, events))
    decreases |events|
  {
    if events != [] {
      OAuthGuarantees.NextKeeps(w, events[0]);
      StaysSeparate(w, events[0]);
      RunStaysSeparate(Next(w, events[0]), events[1..]);
    }
  }

  lemma ReachableSeparate(events: seq<Event>)
    ensures Inv(Run(START, events)) && Separate(Run(START, events))
  {
    OAuthGuarantees.ReachableInv([]);
    RunStaysSeparate(START, events);
  }

  /** The token's row as issued, and its connection not revoked. */
  ghost predicate Opens(w: World, t: Digest, row: AccessRow) {
    && t in w.db.access && w.db.access[t] == row
    && row.connectionId in w.db.conns && w.db.conns[row.connectionId].revokedAt.None?
  }

  lemma OpensUntilRevoked(w: World, e: Event, t: Digest, row: AccessRow)
    requires Opens(w, t, row) && row.connectionId !in Next(w, e).past.revoked
    ensures Opens(Next(w, e), t, row)
  {
    RowsChangeOnlyAsMeant(w, e);
    if Revokes(w, e, row.connectionId) { RevokedCounts(w, e.r); }
  }

  lemma RevokedCounts(w: World, r: RequestId)
    requires r in w.pcs && w.pcs[r].Revoking? && w.pcs[r].conn in w.db.conns
    ensures w.pcs[r].conn in Next(w, FinishRevoke(r)).past.revoked
  {
  }

  lemma {:induction false} OpensAfterRun(w: World, events: seq<Event>, t: Digest, row: AccessRow)
    requires Opens(w, t, row) && row.connectionId !in Run(w, events).past.revoked
    ensures Opens(Run(w, events), t, row)
    decreases |events|
  {
    if events != [] {
      OAuthGuarantees.RunRevokedGrows(Next(w, events[0]), events[1..]);
      OpensUntilRevoked(w, events[0], t, row);
      OpensAfterRun(Next(w, events[0]), events[1..], t, row);
    }
  }

  /** Over every interleaving: an access token goes on opening its connection at the gate until it expires, if and
      only if that connection has not been revoked. Nothing else logs its holder out: no other connection's
      revocation, no sweep, no rotation, no content request. */
  lemma LoggedInExactly(w: World, events: seq<Event>, t: Digest, at: Time)
    requires Inv(w) && Separate(w) && t in w.db.access && Opens(w, t, w.db.access[t])
    ensures var row := w.db.access[t];
            Authenticate(Run(w, events).db, t, at) == Some(row.connectionId) <==>
            at < row.expiresAt && row.connectionId !in Run(w, events).past.revoked
  {
    var row, v := w.db.access[t], Run(w, events);
    RunStaysSeparate(w, events);
    if row.connectionId in v.past.revoked {
      OAuthGuarantees.RevokedNeverAuthenticates(v, row.connectionId, t, at);
    } else {
      OpensAfterRun(w, events, t, row);
      assert forall d :: !HasTokenHash(v.db, d, t);
    }
  }

  // ---- refresh tokens, over runs ----

  /** The row as issued but for its mark; or it has expired; or its connection is gone for good. */
  ghost predicate Presentable(w: World, t: Digest, row: RefreshRow) {
    && (|| (t in w.db.refresh && w.db.refresh[t].(revokedAt := None) == row.(revokedAt := None))
        || row.expiresAt <= w.now
        || row.connectionId !in w.db.conns)
    && row.connectionId in w.past.created
    && (t in w.db.refresh ==> w.db.refresh[t].(revokedAt := None) == row.(revokedAt := None))
    && t in w.past.drawn
  }

  lemma PresentableStays(w: World, e: Event, t: Digest, row: RefreshRow)
    requires Presentable(w, t, row)
    ensures Presentable(Next(w, e), t, row)
  {
    RowsChangeOnlyAsMeant(w, e);
    NextPastGrows(w, e);
    if t !in w.db.refresh { DrawnNotReissued(w, e, t); }
    if row.connectionId !in w.db.conns { CreatedNotReused(w, e, row.connectionId); }
  }

  lemma DrawnNotReissued(w: World, e: Event, t: Digest)
    requires t in w.past.drawn && t !in w.db.refresh
    ensures t !in Next(w, e).db.refresh
  {
    if !e.Issue? { OthersIssueNothing(w, e); }
  }

  lemma OthersIssueNothing(w: World, e: Event)
    requires !e.Issue?
    ensures Next(w, e).db.refresh.Keys <= w.db.refresh.Keys
  {
  }

  lemma CreatedNotReused(w: World, e: Event, c: ConnId)
    requires c in w.past.created && c !in w.db.conns
    ensures c !in Next(w, e).db.conns
  {
  }

  lemma {:induction false} PresentableAfterRun(w: World, events: seq<Event>, t: Digest, row: RefreshRow)
    requires Presentable(w, t, row)
    ensures Presentable(Run(w, events), t, row)
    decreases |events|
  {
    if events != [] {
      PresentableStays(w, events[0], t, row);
      PresentableAfterRun(Next(w, events[0]), events[1..], t, row);
    }
  }

  /** Over every interleaving: a refresh token, rotated away or not, is accepted for presentation from exactly its
      client until exactly its expiry, as long as its connection exists. */
  lemma PresentedExactly(w: World, events: seq<Event>, t: Digest, k: ClientId, at: Time)
    requires Inv(w) && t in w.db.refresh && at >= Run(w, events).now
    ensures var row := w.db.refresh[t];
            LoadsRefresh(Run(w, events).db, k, t, at) <==>
            k == row.clientId && at < row.expiresAt && row.connectionId in Run(w, events).db.conns
  {
    assert t in w.past.lineage && t in w.past.drawn;
    PresentableAfterRun(w, events, t, w.db.refresh[t]);
  }

  // ---- codes, over runs ----

  /** Whether some exchange in the run spent the code. */
  ghost predicate Spent(w: World, events: seq<Event>, h: Digest)
    decreases |events|
  {
    events != [] && (Consumes(w, events[0], Some(h)) || Spent(Next(w, events[0]), events[1..], h))
  }

  ghost predicate CodeWaits(w: World, i: CodeId, row: CodeRow) {
    && row.approved && row.codeHash.Some? && row.codeHash.value in w.past.drawn
    && (forall j <- w.db.codes :: w.db.codes[j].codeHash == row.codeHash ==> j == i && w.db.codes[j] == row)
    && ((i in w.db.codes && w.db.codes[i] == row) || row.expiresAt <= w.now)
  }

  lemma CodeWaitsOn(w: World, e: Event, i: CodeId, row: CodeRow)
    requires CodeWaits(w, i, row) && !Consumes(w, e, row.codeHash)
    ensures CodeWaits(Next(w, e), i, row)
  {
    RowsChangeOnlyAsMeant(w, e);
    NextPastGrows(w, e);
    DrawnCodeHash(w, e, row.codeHash.value);
  }

  /** No event gives a row a hash that was drawn before. */
  lemma DrawnCodeHash(w: World, e: Event, h: Digest)
    requires h in w.past.drawn
    ensures forall j <- Next(w, e).db.codes :: Next(w, e).db.codes[j].codeHash == Some(h) ==>
              j in w.db.codes && w.db.codes[j] == Next(w, e).db.codes[j]
  {
    if IsConsent(e) { ConsentDrawsCodes(w, e, h); } else { OthersAddNoCode(w, e); }
  }

  lemma ConsentDrawsCodes(w: World, e: Event, h: Digest)
    requires h in w.past.drawn && IsConsent(e)
    ensures forall j <- Next(w, e).db.codes :: Next(w, e).db.codes[j].codeHash == Some(h) ==>
              j in w.db.codes && w.db.codes[j] == Next(w, e).db.codes[j]
  {
  }

  lemma OthersAddNoCode(w: World, e: Event)
    requires !IsConsent(e)
    ensures forall j <- Next(w, e).db.codes :: j in w.db.codes && w.db.codes[j] == Next(w, e).db.codes[j]
  {
  }

  ghost predicate NoRowHas(w: World, h: Digest) {
    h in w.past.drawn && forall j <- w.db.codes :: w.db.codes[j].codeHash != Some(h)
  }

  lemma SpendingRemoves(w: World, e: Event, h: Digest)
    requires Inv(w) && Consumes(w, e, Some(h)) && h in w.past.drawn
    ensures NoRowHas(Next(w, e), h)
  {
    assert PcOk(w.pcs[e.r], w.past.approvals, w.past.created, w.past.lineage);
    var found := FindCode(w.db, h);
    forall j | j in Next(w, e).db.codes ensures Next(w, e).db.codes[j].codeHash != Some(h) {
      if j in w.db.codes && w.db.codes[j].codeHash == Some(h) { assert HasCodeHash(w.db.codes, j, h); }
    }
  }

  lemma {:induction false} StaysGone(w: World, events: seq<Event>, h: Digest)
    requires NoRowHas(w, h)
    ensures NoRowHas(Run(w, events), h)
    decreases |events|
  {
    if events != [] {
      DrawnCodeHash(w, events[0], h);
      NextPastGrows(w, events[0]);
      StaysGone(Next(w, events[0]), events[1..], h);
    }
  }

  lemma {:induction false} CodeAfterRun(w: World, events: seq<Event>, i: CodeId, row: CodeRow)
    requires Inv(w) && CodeWaits(w, i, row)
    ensures if Spent(w, events, row.codeHash.value) then NoRowHas(Run(w, events), row.codeHash.value)
            else CodeWaits(Run(w, events), i, row)
    decreases |events|
  {
    if events != [] {
      var v := Next(w, events[0]);
      OAuthGuarantees.NextKeeps(w, events[0]);
      if Consumes(w, events[0], row.codeHash) {
        SpendingRemoves(w, events[0], row.codeHash.value);
        StaysGone(v, events[1..], row.codeHash.value);
      } else {
        CodeWaitsOn(w, events[0], i, row);
        CodeAfterRun(v, events[1..], i, row);
      }
    }
  }

  /** Over every interleaving: an approved code can be exchanged by exactly the client that asked for it, until exactly
      its expiry, if and only if no exchange has spent it. */
  lemma CodeLoadsExactly(w: World, events: seq<Event>, i: CodeId, k: ClientId, at: Time)
    requires Inv(w) && i in w.db.codes && w.db.codes[i].approved && at >= Run(w, events).now
    ensures var row := w.db.codes[i];
            && row.codeHash.Some?
            && (LoadCode(Run(w, events).db, k, row.codeHash.value, at).Some? <==>
                  k == row.clientId && at < row.expiresAt && !Spent(w, events, row.codeHash.value))
  {
    var row := w.db.codes[i];
    assert ConsentRow(row, w.past.approvals);
    var h := row.codeHash.value;
    assert h in w.past.drawn;
    CodeAfterRun(w, events, i, row);
    var v := Run(w, events);
    if !Spent(w, events, h) && i in v.db.codes && v.db.codes[i] == row {
      assert HasCodeHash(v.db.codes, i, h);
    }
  }
}
