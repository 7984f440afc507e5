/** Single use under split requests: no authorization code and no refresh token is taken twice, exactly when
    no request finds gone, while it still counts, what it has read. Over every interleaving of GrantRaces. */
module SingleUse {
  import opened Basics
  import opened Schema
  import opened OAuth
  import opened OAuthRuns
  import opened OAuthInvariant
  import opened GrantRaces

  datatype Taken = TheCode(h: Digest) | TheToken(h: Digest)

  /** The code or token that a write takes over: its request goes on to issue tokens for it. */
  function Take(x: Raced, m: Move): Option<Taken> {
    if !m.WriteFor? || m.r !in x.w.pcs || m.r !in x.views then None
    else
      match x.w.pcs[m.r]
      case CodeLoaded(code, k, subject) => if x.views[m.r].SeenCode? && subject.Some? then Some(TheCode(code)) else None
      case RefreshLoaded(t) =>
        if x.views[m.r].SeenToken? && t in x.w.db.refresh && t in x.w.past.lineage then Some(TheToken(t)) else None
      case _ => None
  }

  /** Taking is going on: with the code to a connection, with the token to the next pair. */
  lemma TakeMeans(x: Raced, r: RequestId, h: Digest)
    requires r in x.w.pcs && r in x.views && Between(x.w.pcs[r])
    requires x.views[r].SeenCode? <==> x.w.pcs[r].CodeLoaded?
    ensures var pcs := StepWrite(x, r).w.pcs;
            && (Take(x, WriteFor(r)) == Some(TheCode(h)) <==>
                r in pcs && pcs[r].CodeConsumed? && pcs[r].grant == h)
            && (Take(x, WriteFor(r)) == Some(TheToken(h)) <==>
                r in pcs && pcs[r].Issuing? && pcs[r].parent == Some(h))
  {
  }

  predicate Active(conns: Conns, c: ConnId) { c in conns && conns[c].revokedAt.None? }

  /** What is taken still counts: the code has not expired since it was read; the token's connection has not
      been revoked, which marks the token too. */
  predicate Counts(x: Raced, r: RequestId) {
    && r in x.w.pcs && r in x.views
    && match x.w.pcs[r]
       case CodeLoaded(_, _, _) => x.views[r].SeenCode? && x.w.now < x.views[r].expiresAt
       case RefreshLoaded(t) => t in x.w.db.refresh && Active(x.w.db.conns, x.w.db.refresh[t].connectionId)
       case _ => false
  }

  function Taking(taken: set<Taken>, x: Raced, m: Move): set<Taken> {
    if Take(x, m).Some? then taken + {Take(x, m).value} else taken
  }

  predicate TakesAgain(x: Raced, m: Move, taken: set<Taken>) {
    Take(x, m).Some? && Take(x, m).value in taken && Counts(x, m.r)
  }

  /** The write takes a code whose row is gone, or a token that is marked. */
  predicate TakesLate(x: Raced, m: Move) {
    Take(x, m).Some? && Counts(x, m.r) && !UpToDate(x, m.r)
  }

  /** The promise: nothing that still counts is taken twice. */
  ghost predicate TakenOnce(x: Raced, moves: seq<Move>, taken: set<Taken>)
    decreases |moves|
  {
    moves != [] ==>
      && !TakesAgain(x, moves[0], taken)
      && TakenOnce(Step(x, moves[0]), moves[1..], Taking(taken, x, moves[0]))
  }

  /** No write comes late. */
  ghost predicate NeverLate(x: Raced, moves: seq<Move>)
    decreases |moves|
  {
    moves != [] ==> !TakesLate(x, moves[0]) && NeverLate(Step(x, moves[0]), moves[1..])
  }

  // ---- what every interleaving keeps ----

  /** The code of a stored row was drawn, and nobody has taken it. */
  ghost predicate CodesUntaken(codes: Codes, drawn: set<Digest>, taken: set<Taken>) {
    && (forall i <- codes :: codes[i].codeHash.Some? ==>
          codes[i].approved && codes[i].codeHash.value in drawn && TheCode(codes[i].codeHash.value) !in taken)
    && (forall i, j | i in codes && j in codes && codes[i].codeHash.Some? && i != j ::
          codes[i].codeHash != codes[j].codeHash)
  }

  /** Of a connection that is not revoked, the marked tokens are the ones that were taken. */
  ghost predicate MarkedAreTaken(refresh: Refresh, conns: Conns, created: Created, drawn: set<Digest>,
                                 taken: set<Taken>) {
    && (forall c <- conns :: c in created)
    && (forall t <- refresh ::
          && t in drawn && refresh[t].connectionId in created
          && (Active(conns, refresh[t].connectionId) ==> (refresh[t].revokedAt.Some? <==> TheToken(t) in taken)))
  }

  predicate CodeThere(codes: Codes, id: CodeId, code: Digest, expiresAt: Time) {
    HasCodeHash(codes, id, code) && codes[id].expiresAt == expiresAt
  }

  /** A code that was read was drawn; it is still there, or somebody has taken it, or it has expired. */
  ghost predicate ViewKnown(w: World, r: RequestId, seen: Seen, taken: set<Taken>) {
    && r in w.pcs
    && match seen
       case SeenCode(id, expiresAt) =>
         && w.pcs[r].CodeLoaded? && w.pcs[r].code in w.past.drawn
         && (forall j <- w.db.codes :: HasCodeHash(w.db.codes, j, w.pcs[r].code) ==> j == id)
         && (|| TheCode(w.pcs[r].code) in taken || expiresAt <= w.now
             || CodeThere(w.db.codes, id, w.pcs[r].code, expiresAt))
       case SeenToken(_, _) => w.pcs[r].RefreshLoaded?
  }

  ghost predicate WorldKnown(w: World, taken: set<Taken>) {
    && (forall t <- taken :: t.h in w.past.drawn)
    && CodesUntaken(w.db.codes, w.past.drawn, taken)
    && MarkedAreTaken(w.db.refresh, w.db.conns, w.past.created, w.past.drawn, taken)
  }

  ghost predicate Known(x: Raced, taken: set<Taken>) {
    WorldKnown(x.w, taken) && forall r <- x.views :: ViewKnown(x.w, r, x.views[r], taken)
  }

  lemma ConsentCodes(w: World, e: Event, taken: set<Taken>)
    requires WorldKnown(w, taken) && IsConsent(e)
    ensures CodesUntaken(Next(w, e).db.codes, Next(w, e).past.drawn, taken)
  {
  }

  /** What happens to tokens when a fresh connection appears and nothing else does. */
  lemma TokensBesideNewConnection(refresh: Refresh, conns: Conns, created: Created, drawn: set<Digest>,
                                  taken: set<Taken>, c: ConnId, row: ConnRow, identity: Identity, more: set<Digest>)
    requires MarkedAreTaken(refresh, conns, created, drawn, taken) && c !in created && drawn <= more
    ensures MarkedAreTaken(refresh, conns[c := row], created[c := identity], more, taken)
  {
  }

  lemma ConsentTokens(w: World, e: Event, taken: set<Taken>)
    requires WorldKnown(w, taken) && IsConsent(e)
    ensures var v := Next(w, e); MarkedAreTaken(v.db.refresh, v.db.conns, v.past.created, v.past.drawn, taken)
  {
    if e.NewPersonalToken? {
      var row := ConnRow(e.u, None, Some(Sha256(e.t)), Some(e.expires), None);
      if e.c !in w.past.created {
        TokensBesideNewConnection(w.db.refresh, w.db.conns, w.past.created, w.past.drawn, taken, e.c, row,
                                  Identity(e.u, None), w.past.drawn + {Sha256(e.t)});
      }
    } else {
      OthersSpareTokens(w, e);
    }
  }

  lemma OthersSpareTokens(w: World, e: Event)
    requires IsConsent(e) && !e.NewPersonalToken?
    ensures var v := Next(w, e);
            v.db.refresh == w.db.refresh && v.db.conns == w.db.conns && v.past.created == w.past.created
            && w.past.drawn <= v.past.drawn
  {
    if e.Approve? { ApproveSparesTokens(w, e.code, e.u, e.t); }
  }

  lemma ApproveSparesTokens(w: World, id: CodeId, u: UserId, t: Token)
    ensures var v := StepApprove(w, id, u, t);
            v.db.refresh == w.db.refresh && v.db.conns == w.db.conns && v.past.created == w.past.created
            && w.past.drawn <= v.past.drawn
  {
  }

  lemma ConsentKnown(w: World, e: Event, taken: set<Taken>)
    requires WorldKnown(w, taken) && IsConsent(e)
    ensures WorldKnown(Next(w, e), taken)
  {
    ConsentCodes(w, e, taken);
    ConsentTokens(w, e, taken);
    DrawnGrows(w, e);
  }

  lemma ExchangeKnown(w: World, e: Event, taken: set<Taken>)
    requires WorldKnown(w, taken) && IsExchange(e) && !e.Consume?
    ensures WorldKnown(Next(w, e), taken)
  {
  }

  lemma OtherKnown(w: World, e: Event, taken: set<Taken>)
    requires WorldKnown(w, taken) && !IsConsent(e) && !IsExchange(e) && !e.Rotate?
    ensures WorldKnown(Next(w, e), taken)
  {
  }

  lemma NextKnown(w: World, e: Event, taken: set<Taken>)
    requires WorldKnown(w, taken) && !e.Consume? && !e.Rotate?
    ensures WorldKnown(Next(w, e), taken)
  {
    if IsConsent(e) { ConsentKnown(w, e, taken); }
    else if IsExchange(e) { ExchangeKnown(w, e, taken); }
    else { OtherKnown(w, e, taken); }
  }

  /** Only time and the sweep take a code's row without a request doing so. */
  lemma CodeStays(w: World, e: Event, id: CodeId, code: Digest, expiresAt: Time, taken: set<Taken>)
    requires WorldKnown(w, taken) && !e.Consume? && !e.Rotate?
    requires expiresAt <= w.now || CodeThere(w.db.codes, id, code, expiresAt)
    ensures expiresAt <= Next(w, e).now || CodeThere(Next(w, e).db.codes, id, code, expiresAt)
  {
  }

  /** A hash that was drawn before gets no new row. */
  lemma NoNewRow(w: World, e: Event, j: CodeId, code: Digest)
    requires code in w.past.drawn && !e.Consume? && HasCodeHash(Next(w, e).db.codes, j, code)
    ensures HasCodeHash(w.db.codes, j, code)
  {
    if e.Approve? { ApproveAddsFreshRow(w, e, j, code); } else { OthersAddNoRow(w, e, j, code); }
  }

  lemma ApproveAddsFreshRow(w: World, e: Event, j: CodeId, code: Digest)
    requires code in w.past.drawn && e.Approve? && HasCodeHash(Next(w, e).db.codes, j, code)
    ensures HasCodeHash(w.db.codes, j, code)
  {
  }

  lemma OthersAddNoRow(w: World, e: Event, j: CodeId, code: Digest)
    requires !e.Consume? && !e.Approve? && HasCodeHash(Next(w, e).db.codes, j, code)
    ensures HasCodeHash(w.db.codes, j, code)
  {
  }

  lemma DrawnGrows(w: World, e: Event)
    ensures w.past.drawn <= Next(w, e).past.drawn
  {
  }

  lemma ViewStays(w: World, e: Event, r: RequestId, seen: Seen, taken: set<Taken>)
    requires WorldKnown(w, taken) && ViewKnown(w, r, seen, taken) && !e.Consume? && !e.Rotate?
    requires !(e.Abandon? && e.r == r)
    ensures ViewKnown(Next(w, e), r, seen, taken)
  {
    PcStays(w, e, r);
    DrawnGrows(w, e);
    forall j, code | code in w.past.drawn && HasCodeHash(Next(w, e).db.codes, j, code)
      ensures HasCodeHash(w.db.codes, j, code)
    {
      NoNewRow(w, e, j, code);
    }
    if seen.SeenCode? && TheCode(w.pcs[r].code) !in taken {
      CodeStays(w, e, seen.id, w.pcs[r].code, seen.expiresAt, taken);
    }
  }

  lemma PlainKnown(x: Raced, e: Event, taken: set<Taken>)
    requires Known(x, taken)
    ensures Known(Step(x, Plain(e)), taken)
  {
    if !e.Consume? && !e.Rotate? {
      NextKnown(x.w, e, taken);
      var y := Step(x, Plain(e));
      forall r | r in y.views ensures ViewKnown(y.w, r, y.views[r], taken) {
        ViewStays(x.w, e, r, x.views[r], taken);
      }
    }
  }

  /** A read changes no table: at most its own request ends or starts revoking. */
  lemma ReadTouches(x: Raced, r: RequestId)
    ensures var y := StepRead(x, r);
            && y.w.db == x.w.db && y.w.now == x.w.now && y.w.past == x.w.past
            && (forall q <- x.views :: q in x.w.pcs ==> q in y.w.pcs && y.w.pcs[q] == x.w.pcs[q])
            && (forall q <- y.views :: if q in x.views then y.views[q] == x.views[q] else
                  q == r && r in x.w.pcs && y.w.pcs == x.w.pcs && Found(x.w, x.w.pcs[r]) == Some(y.views[r]))
  {
  }

  lemma ReadKnown(x: Raced, r: RequestId, taken: set<Taken>)
    requires Known(x, taken)
    ensures Known(StepRead(x, r), taken)
  {
    ReadTouches(x, r);
  }

  lemma WriteCodeKnown(w: World, r: RequestId, id: CodeId, expiresAt: Time, taken: set<Taken>)
    requires WorldKnown(w, taken) && ViewKnown(w, r, SeenCode(id, expiresAt), taken) && w.pcs[r].subject.Some?
    ensures var pc := w.pcs[r];
            var v := WriteCode(w, r, pc.code, pc.client, pc.subject.value, id);
            && WorldKnown(v, taken + {TheCode(pc.code)})
            && forall q, seen | q != r && ViewKnown(w, q, seen, taken) ::
                 ViewKnown(v, q, seen, taken + {TheCode(pc.code)})
  {
    var pc := w.pcs[r];
    var v := WriteCode(w, r, pc.code, pc.client, pc.subject.value, id);
    assert v.past == w.past && v.now == w.now && v.db.refresh == w.db.refresh && v.db.conns == w.db.conns;
    assert forall i <- v.db.codes ::
        i in w.db.codes && v.db.codes[i] == w.db.codes[i] && !HasCodeHash(w.db.codes, i, pc.code);
    forall q, seen | q != r && ViewKnown(w, q, seen, taken)
      ensures ViewKnown(v, q, seen, taken + {TheCode(pc.code)})
    {
      assert q in v.pcs && v.pcs[q] == w.pcs[q];
    }
  }

  lemma WriteTokenKnown(w: World, r: RequestId, conn: ConnId, client: ClientId, taken: set<Taken>)
    requires WorldKnown(w, taken) && ViewKnown(w, r, SeenToken(conn, client), taken)
    ensures var t := w.pcs[r].token;
            var v := WriteToken(w, r, t, conn, client);
            var after := if t in w.db.refresh && t in w.past.lineage then taken + {TheToken(t)} else taken;
            && WorldKnown(v, after)
            && forall q, seen | q != r && ViewKnown(w, q, seen, taken) :: ViewKnown(v, q, seen, after)
  {
    var t := w.pcs[r].token;
    var v := WriteToken(w, r, t, conn, client);
    assert v.past == w.past && v.now == w.now && v.db.codes == w.db.codes && v.db.conns == w.db.conns;
    var after := if t in w.db.refresh && t in w.past.lineage then taken + {TheToken(t)} else taken;
    forall q, seen | q != r && ViewKnown(w, q, seen, taken) ensures ViewKnown(v, q, seen, after) {
      assert q in v.pcs && v.pcs[q] == w.pcs[q];
    }
  }

  lemma WriteKnown(x: Raced, r: RequestId, taken: set<Taken>)
    requires Known(x, taken)
    ensures Known(StepWrite(x, r), Taking(taken, x, WriteFor(r)))
  {
    if r in x.views {
      assert ViewKnown(x.w, r, x.views[r], taken);
      match x.views[r]
      case SeenCode(id, expiresAt) =>
        if x.w.pcs[r].subject.Some? { WriteCodeKnown(x.w, r, id, expiresAt, taken); }
      case SeenToken(conn, client) => WriteTokenKnown(x.w, r, conn, client, taken);
    }
  }

  lemma StepKnown(x: Raced, m: Move, taken: set<Taken>)
    requires Known(x, taken)
    ensures Known(Step(x, m), Taking(taken, x, m))
  {
    match m
    case Plain(e) => PlainKnown(x, e, taken);
    case ReadFor(r) => ReadKnown(x, r, taken);
    case WriteFor(r) => WriteKnown(x, r, taken);
  }

  /** At one move: taken before is late, and the other way round. */
  lemma TakesAgainExactly(x: Raced, m: Move, taken: set<Taken>)
    requires Known(x, taken)
    ensures TakesAgain(x, m, taken) <==> TakesLate(x, m)
  {
  }

  /** Over every interleaving: no code and no token that still counts is taken twice if and only if no write
      that still counts finds its code's row gone or its token marked. */
  lemma {:induction false} SingleUseExactly(x: Raced, moves: seq<Move>, taken: set<Taken>)
    requires Known(x, taken)
    ensures TakenOnce(x, moves, taken) <==> NeverLate(x, moves)
    decreases |moves|
  {
    if moves != [] {
      TakesAgainExactly(x, moves[0], taken);
      StepKnown(x, moves[0], taken);
      SingleUseExactly(Step(x, moves[0]), moves[1..], Taking(taken, x, moves[0]));
    }
  }

  /** In particular over every run from an empty database. */
  lemma SingleUseFromStart(moves: seq<Move>)
    ensures TakenOnce(Raced(START, map[]), moves, {}) <==> NeverLate(Raced(START, map[]), moves)
  {
    SingleUseExactly(Raced(START, map[]), moves, {});
  }
}
