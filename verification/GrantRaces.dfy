/** Code exchange and refresh with their SELECT and their DELETE or UPDATE as separate steps.

    OAuthRuns takes each as one step. Here a request reads the row first and writes later, and anything may
    happen in between. A DELETE of a row that is gone goes through (the ORM only warns); an UPDATE of a row
    that is gone ends the request. */
module GrantRaces {
  import opened Basics
  import opened Schema
  import opened OAuth
  import opened OAuthRuns
  import opened OAuthInvariant
  import OAuthGuarantees

  /** The row a request has read and not yet written. */
  datatype Seen = SeenCode(id: CodeId, expiresAt: Time) | SeenToken(conn: ConnId, client: ClientId)

  datatype Raced = Raced(w: World, views: map<RequestId, Seen>)

  /** Any event but the two that are split, or one half of those. */
  datatype Move = Plain(e: Event) | ReadFor(r: RequestId) | WriteFor(r: RequestId)

  predicate Between(pc: Pc) { pc.CodeLoaded? || pc.RefreshLoaded? }

  /** The one-step event that the read and the write stand for. */
  function Whole(w: World, r: RequestId): Event {
    if r in w.pcs && w.pcs[r].CodeLoaded? then Consume(r) else Rotate(r)
  }

  /** What the SELECT of the request finds; nothing where it already turns the request away. */
  ghost function Found(w: World, pc: Pc): Option<Seen> {
    match pc
    case CodeLoaded(code, k, subject) =>
      var found := FindCode(w.db, code);
      if subject.None? || found.None? then None else Some(SeenCode(found.value, w.db.codes[found.value].expiresAt))
    case RefreshLoaded(t) =>
      if !Live(w.db.refresh, t) || t !in w.past.lineage then None
      else Some(SeenToken(w.db.refresh[t].connectionId, w.db.refresh[t].clientId))
    case _ => None
  }

  /** The SELECT; a request that it already turns away ends, or starts revoking, as before. */
  ghost function StepRead(x: Raced, r: RequestId): Raced {
    if r !in x.w.pcs || r in x.views || !Between(x.w.pcs[r]) then x
    else
      var found := Found(x.w, x.w.pcs[r]);
      if found.Some? then x.(views := x.views[r := found.value]) else x.(w := Next(x.w, Whole(x.w, r)))
  }

  /** The request goes on with the code it read. The DELETE names the primary key, which is drawn at random:
      a later row never has it. */
  function WriteCode(w: World, r: RequestId, code: Digest, k: ClientId, u: UserId, id: CodeId): World {
    var left := if HasCodeHash(w.db.codes, id, code) then w.db.codes - {id} else w.db.codes;
    Advance(w.(db := w.db.(codes := left)), r, CodeConsumed(code, u, k))
  }

  /** The request goes on with the token it read. */
  function WriteToken(w: World, r: RequestId, t: Digest, conn: ConnId, client: ClientId): World {
    if t !in w.db.refresh || t !in w.past.lineage then Finish(w, r)
    else
      var marked := w.db.refresh[t := w.db.refresh[t].(revokedAt := Some(w.now))];
      Advance(w.(db := w.db.(refresh := marked)), r, Issuing(w.past.lineage[t].grant, Some(t), conn, client))
  }

  /** The DELETE or UPDATE. */
  function StepWrite(x: Raced, r: RequestId): Raced {
    if r !in x.w.pcs || r !in x.views then x
    else
      var done := x.(views := x.views - {r});
      match x.w.pcs[r]
      case CodeLoaded(code, k, subject) =>
        if x.views[r].SeenToken? || subject.None? then done
        else done.(w := WriteCode(x.w, r, code, k, subject.value, x.views[r].id))
      case RefreshLoaded(t) =>
        if x.views[r].SeenToken? then done.(w := WriteToken(x.w, r, t, x.views[r].conn, x.views[r].client)) else done
      case _ => done
  }

  ghost function Step(x: Raced, m: Move): Raced {
    match m
    case Plain(e) =>
      if e.Consume? || e.Rotate? then x
      else Raced(Next(x.w, e), if e.Abandon? then x.views - {e.r} else x.views)
    case ReadFor(r) => StepRead(x, r)
    case WriteFor(r) => StepWrite(x, r)
  }

  ghost function RunRaced(x: Raced, moves: seq<Move>): Raced
    decreases |moves|
  {
    if moves == [] then x else RunRaced(Step(x, moves[0]), moves[1..])
  }

  /** Where the world would be had the write, with its read, been one step. */
  ghost function Unsplit(x: Raced, m: Move): World {
    if m.WriteFor? && m.r in x.views then Next(x.w, Whole(x.w, m.r)) else Step(x, m).w
  }

  /** The write finds what was read: the code still there, the token not marked since. */
  predicate UpToDate(x: Raced, r: RequestId) {
    r in x.w.pcs && r in x.views ==>
      match x.w.pcs[r]
      case CodeLoaded(code, k, subject) => x.views[r].SeenCode? ==> HasCodeHash(x.w.db.codes, x.views[r].id, code)
      case RefreshLoaded(t) => t in x.w.db.refresh ==> Live(x.w.db.refresh, t)
      case _ => true
  }

  predicate Timely(x: Raced, m: Move) { m.WriteFor? ==> UpToDate(x, m.r) }

  // ---- what every run keeps ----

  /** What was read belongs to the request's step, and says of the token what history says of it. */
  predicate ReadOk(w: World, r: RequestId, seen: Seen) {
    && r in w.pcs
    && match seen
       case SeenCode(id, _) => w.pcs[r].CodeLoaded? && w.pcs[r].subject.Some?
       case SeenToken(conn, client) =>
         && w.pcs[r].RefreshLoaded? && w.pcs[r].token in w.past.lineage
         && var l := w.past.lineage[w.pcs[r].token];
            conn == l.conn && l.grant in w.past.approvals && client == w.past.approvals[l.grant].client
  }

  ghost predicate RacedInv(x: Raced) {
    Inv(x.w) && forall r <- x.views :: ReadOk(x.w, r, x.views[r])
  }

  /** History keeps what it says of tokens and codes. */
  ghost predicate PastStays(w: World, v: World) {
    && (forall t <- w.past.lineage :: t in v.past.lineage && v.past.lineage[t] == w.past.lineage[t])
    && (forall g <- w.past.approvals :: g in v.past.approvals && v.past.approvals[g] == w.past.approvals[g])
  }

  lemma ConsentPastStays(w: World, e: Event)
    requires Inv(w) && IsConsent(e)
    ensures PastStays(w, Next(w, e))
  {
    forall g | g in w.past.approvals
      ensures g in Next(w, e).past.approvals && Next(w, e).past.approvals[g] == w.past.approvals[g]
    {
      OAuthGuarantees.ApprovalsStay(w, e, g);
    }
    ConsentKeepsLineage(w, e);
  }

  lemma ConsentKeepsLineage(w: World, e: Event)
    requires IsConsent(e)
    ensures Next(w, e).past.lineage == w.past.lineage
  {
  }

  lemma ExchangePastStays(w: World, e: Event)
    requires Inv(w) && IsExchange(e)
    ensures PastStays(w, Next(w, e))
  {
    OAuthGuarantees.OnlyConsentApproves(w, e);
    if e.Issue? { IssueKeepsLineage(w, e.r, e.access, e.refresh); } else { ExchangeKeepsLineage(w, e); }
  }

  lemma ExchangeKeepsLineage(w: World, e: Event)
    requires IsExchange(e) && !e.Issue?
    ensures Next(w, e).past.lineage == w.past.lineage
  {
  }

  lemma IssueKeepsLineage(w: World, r: RequestId, a: Token, f: Token)
    requires Inv(w)
    ensures forall t <- w.past.lineage ::
              t in Next(w, Issue(r, a, f)).past.lineage && Next(w, Issue(r, a, f)).past.lineage[t] == w.past.lineage[t]
  {
    assert Sha256(f) in w.past.lineage ==> Sha256(f) in w.past.drawn;
  }

  lemma OtherPastStays(w: World, e: Event)
    requires !IsConsent(e) && !IsExchange(e)
    ensures PastStays(w, Next(w, e))
  {
  }

  lemma PastStaysAlways(w: World, e: Event)
    requires Inv(w)
    ensures PastStays(w, Next(w, e))
  {
    if IsConsent(e) { ConsentPastStays(w, e); }
    else if IsExchange(e) { ExchangePastStays(w, e); }
    else { OtherPastStays(w, e); }
  }

  /** A request between its read and its write only moves by its own write or by being abandoned. */
  predicate Leaves(e: Event, r: RequestId) {
    (e.Consume? && e.r == r) || (e.Rotate? && e.r == r) || (e.Abandon? && e.r == r)
  }

  lemma PcStays(w: World, e: Event, r: RequestId)
    requires r in w.pcs && Between(w.pcs[r]) && !Leaves(e, r)
    ensures r in Next(w, e).pcs && Next(w, e).pcs[r] == w.pcs[r]
  {
    if IsConsent(e) { ConsentPcStays(w, e, r); }
    else if IsExchange(e) { ExchangePcStays(w, e, r); }
    else { OtherPcStays(w, e, r); }
  }

  lemma ConsentPcStays(w: World, e: Event, r: RequestId)
    requires IsConsent(e)
    ensures Next(w, e).pcs == w.pcs
  {
  }

  lemma ExchangePcStays(w: World, e: Event, r: RequestId)
    requires IsExchange(e) && r in w.pcs && Between(w.pcs[r]) && !Leaves(e, r)
    ensures r in Next(w, e).pcs && Next(w, e).pcs[r] == w.pcs[r]
  {
  }

  lemma OtherPcStays(w: World, e: Event, r: RequestId)
    requires !IsConsent(e) && !IsExchange(e) && r in w.pcs && Between(w.pcs[r]) && !Leaves(e, r)
    ensures r in Next(w, e).pcs && Next(w, e).pcs[r] == w.pcs[r]
  {
  }

  /** An event keeps what the other requests have read. */
  lemma ReadStays(w: World, e: Event, r: RequestId, seen: Seen)
    requires Inv(w) && ReadOk(w, r, seen) && !Leaves(e, r)
    ensures ReadOk(Next(w, e), r, seen)
  {
    PcStays(w, e, r);
    PastStaysAlways(w, e);
  }

  // ---- one split step against the whole one ----

  lemma WriteCodeExactly(w: World, r: RequestId, id: CodeId)
    requires Inv(w) && r in w.pcs && w.pcs[r].CodeLoaded? && w.pcs[r].subject.Some?
    ensures var pc := w.pcs[r];
            WriteCode(w, r, pc.code, pc.client, pc.subject.value, id) == StepConsume(w, r, pc)
            <==> HasCodeHash(w.db.codes, id, pc.code)
  {
    var pc := w.pcs[r];
    var found := FindCode(w.db, pc.code);
    var raced := WriteCode(w, r, pc.code, pc.client, pc.subject.value, id);
    if HasCodeHash(w.db.codes, id, pc.code) {
      assert found.Some? && HasCodeHash(w.db.codes, found.value, pc.code);
      assert found == Some(id);
    } else if found.Some? {
      assert found.value in raced.db.codes && found.value !in StepConsume(w, r, pc).db.codes;
    } else {
      assert r in raced.pcs && r !in StepConsume(w, r, pc).pcs;
    }
  }

  lemma WriteTokenExactly(w: World, r: RequestId, conn: ConnId, client: ClientId)
    requires Inv(w) && ReadOk(w, r, SeenToken(conn, client))
    ensures var pc := w.pcs[r];
            WriteToken(w, r, pc.token, conn, client) == StepRotate(w, r, pc)
            <==> (pc.token in w.db.refresh ==> Live(w.db.refresh, pc.token))
  {
    var pc := w.pcs[r];
    if pc.token in w.db.refresh && !Live(w.db.refresh, pc.token) {
      assert WriteToken(w, r, pc.token, conn, client).pcs[r].Issuing? && StepRotate(w, r, pc).pcs[r].Revoking?;
    }
  }

  /** A write is the whole step exactly when it finds what was read. */
  lemma WriteExactly(x: Raced, r: RequestId)
    requires RacedInv(x)
    ensures Step(x, WriteFor(r)).w == Unsplit(x, WriteFor(r)) <==> UpToDate(x, r)
  {
    if r in x.views {
      assert ReadOk(x.w, r, x.views[r]);
      if x.views[r].SeenCode? { CodeWriteExactly(x, r); } else { TokenWriteExactly(x, r); }
    }
  }

  lemma CodeWriteExactly(x: Raced, r: RequestId)
    requires Inv(x.w) && r in x.views && x.views[r].SeenCode? && ReadOk(x.w, r, x.views[r])
    ensures StepWrite(x, r).w == Next(x.w, Whole(x.w, r)) <==> UpToDate(x, r)
  {
    WriteCodeExactly(x.w, r, x.views[r].id);
  }

  lemma TokenWriteExactly(x: Raced, r: RequestId)
    requires Inv(x.w) && r in x.views && x.views[r].SeenToken? && ReadOk(x.w, r, x.views[r])
    ensures StepWrite(x, r).w == Next(x.w, Whole(x.w, r)) <==> UpToDate(x, r)
  {
    WriteTokenExactly(x.w, r, x.views[r].conn, x.views[r].client);
  }

  // ---- over runs ----

  lemma PlainKeeps(x: Raced, e: Event)
    requires RacedInv(x)
    ensures RacedInv(Step(x, Plain(e)))
  {
    if !e.Consume? && !e.Rotate? {
      OAuthGuarantees.NextKeeps(x.w, e);
      var y := Step(x, Plain(e));
      forall r | r in y.views ensures ReadOk(y.w, r, y.views[r]) { ReadStays(x.w, e, r, x.views[r]); }
    }
  }

  /** The read-and-write of a request in one step keeps what the others have read. */
  lemma WholeKeeps(x: Raced, r: RequestId, e: Event, views: map<RequestId, Seen>)
    requires RacedInv(x) && (e == Consume(r) || e == Rotate(r))
    requires r !in views && forall q <- views :: q in x.views && views[q] == x.views[q]
    ensures RacedInv(Raced(Next(x.w, e), views))
  {
    OAuthGuarantees.NextKeeps(x.w, e);
    forall q | q in views ensures ReadOk(Next(x.w, e), q, views[q]) { ReadStays(x.w, e, q, x.views[q]); }
  }

  lemma FoundOk(w: World, r: RequestId)
    requires Inv(w) && r in w.pcs && Found(w, w.pcs[r]).Some?
    ensures ReadOk(w, r, Found(w, w.pcs[r]).value)
  {
  }

  lemma ReadKeeps(x: Raced, r: RequestId)
    requires RacedInv(x)
    ensures RacedInv(StepRead(x, r))
  {
    if r in x.w.pcs && r !in x.views && Between(x.w.pcs[r]) {
      if Found(x.w, x.w.pcs[r]).Some? { FoundOk(x.w, r); } else { WholeKeeps(x, r, Whole(x.w, r), x.views); }
    }
  }

  lemma TimelyWriteKeeps(x: Raced, r: RequestId)
    requires RacedInv(x) && UpToDate(x, r)
    ensures RacedInv(StepWrite(x, r))
  {
    if r in x.views {
      assert ReadOk(x.w, r, x.views[r]);
      WriteExactly(x, r);
      WriteViews(x, r);
      WholeKeeps(x, r, Whole(x.w, r), x.views - {r});
    }
  }

  lemma WriteViews(x: Raced, r: RequestId)
    requires r in x.w.pcs && r in x.views
    ensures StepWrite(x, r).views == x.views - {r}
  {
  }

  lemma TimelyKeeps(x: Raced, m: Move)
    requires RacedInv(x) && Timely(x, m)
    ensures RacedInv(Step(x, m))
  {
    match m
    case Plain(e) => PlainKeeps(x, e);
    case ReadFor(r) => ReadKeeps(x, r);
    case WriteFor(r) => TimelyWriteKeeps(x, r);
  }

  ghost predicate TimelyRun(x: Raced, moves: seq<Move>)
    decreases |moves|
  {
    moves != [] ==> Timely(x, moves[0]) && TimelyRun(Step(x, moves[0]), moves[1..])
  }

  /** Every step of the run leads where it would have led had no read been apart from its write. */
  ghost predicate AlwaysWhole(x: Raced, moves: seq<Move>)
    decreases |moves|
  {
    moves != [] ==> Step(x, moves[0]).w == Unsplit(x, moves[0]) && AlwaysWhole(Step(x, moves[0]), moves[1..])
  }

  /** Over every interleaving: splitting the two requests cannot be told from taking them whole if and only if
      no write finds its code taken or its token marked since the read. */
  lemma {:induction false} SplitInvisibleExactly(x: Raced, moves: seq<Move>)
    requires RacedInv(x)
    ensures AlwaysWhole(x, moves) <==> TimelyRun(x, moves)
    decreases |moves|
  {
    if moves != [] {
      var m := moves[0];
      if m.WriteFor? { WriteExactly(x, m.r); }
      if Timely(x, m) {
        TimelyKeeps(x, m);
        SplitInvisibleExactly(Step(x, m), moves[1..]);
      }
    }
  }

  lemma {:induction false} TimelyRunKeeps(x: Raced, moves: seq<Move>)
    requires RacedInv(x) && TimelyRun(x, moves)
    ensures RacedInv(RunRaced(x, moves))
    decreases |moves|
  {
    if moves != [] {
      TimelyKeeps(x, moves[0]);
      TimelyRunKeeps(Step(x, moves[0]), moves[1..]);
    }
  }

  /** So in every such run from an empty database the whole invariant holds: codes are spent once, rotation is
      linear, and revocation is final. */
  lemma TimelyRunsAreSafe(moves: seq<Move>)
    requires TimelyRun(Raced(START, map[]), moves)
    ensures Inv(RunRaced(Raced(START, map[]), moves).w)
  {
    StartsOk();
    TimelyRunKeeps(Raced(START, map[]), moves);
  }

  // ---- what survives every interleaving ----

  /** Connection identities are never reused, and a revoked connection keeps its mark. */
  ghost predicate RevokedOk(w: World) {
    && (forall c <- w.db.conns :: c in w.past.created)
    && (forall c <- w.past.revoked ::
          c in w.past.created && (c in w.db.conns ==> w.db.conns[c].revokedAt.Some?))
  }

  lemma ConsentRevoked(w: World, e: Event)
    requires RevokedOk(w) && IsConsent(e)
    ensures RevokedOk(Next(w, e)) && Next(w, e).past.revoked == w.past.revoked
  {
  }

  lemma ExchangeRevoked(w: World, e: Event)
    requires RevokedOk(w) && IsExchange(e)
    ensures RevokedOk(Next(w, e)) && Next(w, e).past.revoked == w.past.revoked
  {
  }

  lemma OtherRevoked(w: World, e: Event)
    requires RevokedOk(w) && !IsConsent(e) && !IsExchange(e)
    ensures RevokedOk(Next(w, e)) && w.past.revoked <= Next(w, e).past.revoked
  {
  }

  lemma NextRevoked(w: World, e: Event)
    requires RevokedOk(w)
    ensures RevokedOk(Next(w, e)) && w.past.revoked <= Next(w, e).past.revoked
  {
    if IsConsent(e) { ConsentRevoked(w, e); }
    else if IsExchange(e) { ExchangeRevoked(w, e); }
    else { OtherRevoked(w, e); }
  }

  lemma StepRevoked(x: Raced, m: Move)
    requires RevokedOk(x.w)
    ensures RevokedOk(Step(x, m).w) && x.w.past.revoked <= Step(x, m).w.past.revoked
  {
    match m
    case Plain(e) => NextRevoked(x.w, e);
    case ReadFor(r) => NextRevoked(x.w, Whole(x.w, r));
    case WriteFor(r) =>
  }

  lemma {:induction false} RunRevoked(x: Raced, moves: seq<Move>)
    requires RevokedOk(x.w)
    ensures RevokedOk(RunRaced(x, moves).w) && x.w.past.revoked <= RunRaced(x, moves).w.past.revoked
    decreases |moves|
  {
    if moves != [] {
      StepRevoked(x, moves[0]);
      RunRevoked(Step(x, moves[0]), moves[1..]);
    }
  }

  lemma {:induction false} RunRacedAppend(x: Raced, before: seq<Move>, after: seq<Move>)
    ensures RunRaced(x, before + after) == RunRaced(RunRaced(x, before), after)
    decreases |before|
  {
    if before == [] {
      assert before + after == after;
    } else {
      assert (before + after)[1..] == before[1..] + after;
      RunRacedAppend(Step(x, before[0]), before[1..], after);
    }
  }

  /** Revocation needs no such condition: over every interleaving from an empty database, late writes
      included, a connection once revoked is never authenticated again. */
  lemma RevocationIsFinalRaced(before: seq<Move>, after: seq<Move>, c: ConnId, h: Digest, at: Time)
    requires c in RunRaced(Raced(START, map[]), before).w.past.revoked
    ensures Authenticate(RunRaced(Raced(START, map[]), before + after).w.db, h, at) != Some(c)
  {
    RunRacedAppend(Raced(START, map[]), before, after);
    RunRevoked(Raced(START, map[]), before);
    RunRevoked(RunRaced(Raced(START, map[]), before), after);
  }
}
