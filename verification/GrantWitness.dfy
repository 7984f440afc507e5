/** Two runs of the authorization server, from an empty database, in which two requests read the same row
    before either writes: one authorization code founds two families of tokens, and one refresh token is
    replaced twice. */
module GrantWitness {
  import opened Basics
  import opened Schema
  import opened OAuth
  import opened OAuthRuns
  import opened OAuthInvariant
  import opened OAuthWitness
  import opened GrantRaces
  import Lifetimes

  // ---- running along given states ----

  function Lifted(events: seq<Event>): seq<Move> {
    if events == [] then [] else [Plain(events[0])] + Lifted(events[1..])
  }

  ghost predicate Untouched(events: seq<Event>) {
    forall e <- events :: !e.Consume? && !e.Rotate? && !e.Abandon?
  }

  /** Events that are not split lead where they led. */
  lemma {:induction false} LiftedRun(w: World, events: seq<Event>)
    requires Untouched(events)
    ensures RunRaced(Raced(w, map[]), Lifted(events)) == Raced(Run(w, events), map[])
    decreases |events|
  {
    if events != [] {
      var moves := Lifted(events);
      assert moves[0] == Plain(events[0]) && moves[1..] == Lifted(events[1..]);
      LiftedRun(Next(w, events[0]), events[1..]);
    }
  }

  lemma {:induction false} RunThrough(moves: seq<Move>, states: seq<Raced>)
    requires |states| == |moves| + 1
    requires forall i | 0 <= i < |moves| :: Step(states[i], moves[i]) == states[i + 1]
    ensures RunRaced(states[0], moves) == states[|moves|]
    decreases |moves|
  {
    if moves != [] {
      RunThrough(moves[1..], states[1..]);
    }
  }

  // ---- an exchange beside requests that wait ----

  const CONN := ConnRow(0, Some(0), None, None, None)
  const CONNECTED := REGISTERED.db.(conns := map[0 := CONN])

  type Waiting = map<RequestId, Seen>

  function Row(revokedAt: Option<Time>): RefreshRow { RefreshRow(0, 0, revokedAt, NOW + REFRESH_TOKEN_TTL) }

  /** The world once request 0 has spent the code and stands at `pc`, beside `others`. */
  function Spending(pc: Pc, locked: bool, others: Pcs): World {
    Spent(pc, locked).(pcs := others[0 := pc])
  }

  const ISSUED := APPROVED.(
    db := CONNECTED.(access := map[Sha256(1) := AccessRow(0, NOW + ACCESS_TOKEN_TTL)],
                     refresh := map[Sha256(2) := Row(None)]),
    past := APPROVED.past.(
      drawn := {CODE, Sha256(1), Sha256(2)}, created := map[0 := Identity(0, Some(0))],
      lineage := map[Sha256(2) := Lineage(CODE, None, 0, 0)], origin := map[Sha256(1) := CODE]))

  /** The request has issued its pair and is gone. */
  function Minted(w: World, r: RequestId, grant: Digest, parent: Option<Digest>, a: Token, f: Token): World {
    w.(
      pcs := w.pcs - {r},
      db := w.db.(
        access := w.db.access[Sha256(a) := AccessRow(0, NOW + ACCESS_TOKEN_TTL)],
        refresh := w.db.refresh[Sha256(f) := Row(None)]),
      past := w.past.(
        drawn := w.past.drawn + {Sha256(a), Sha256(f)},
        lineage := w.past.lineage[Sha256(f) := Lineage(grant, parent, 0, Generation(w.past.lineage, parent))],
        origin := w.past.origin[Sha256(a) := grant]))
  }

  lemma IssuesPair(w: World, r: RequestId, grant: Digest, parent: Option<Digest>, a: Token, f: Token,
                   waiting: Waiting)
    requires r in w.pcs && w.pcs[r] == Issuing(grant, parent, 0, 0) && w.now == NOW && w.locks == map[]
    requires 0 in w.db.conns && 0 in w.db.clients && Sha256(a) !in w.db.access && Sha256(f) !in w.db.refresh
    requires Sha256(a) !in w.past.drawn && Sha256(f) !in w.past.drawn && a != f
    ensures Step(Raced(w, waiting), Plain(Issue(r, a, f))) == Raced(Minted(w, r, grant, parent, a, f), waiting)
  {
    assert Finish(w, r).locks == map[];
  }

  const LEG: seq<Move> :=
    [Plain(BeginExchange(0, 0, 0)), ReadFor(0), WriteFor(0), Plain(AcquireLock(0)), Plain(SelectConnection(0)),
     Plain(CreateConnection(0, 0)), Plain(Issue(0, 1, 2))]

  const SEEN_CODE := SeenCode(0, NOW + AUTHORIZATION_CODE_TTL)
  const LOADED := CodeLoaded(CODE, 0, Some(0))

  lemma Begins(r: RequestId, others: Pcs, waiting: Waiting)
    requires r !in others
    ensures Step(Raced(APPROVED.(pcs := others), waiting), Plain(BeginExchange(r, 0, 0)))
         == Raced(APPROVED.(pcs := others[r := LOADED]), waiting)
  {
    assert HasCodeHash(APPROVED.db.codes, 0, CODE);
    Lifetimes.FindsCode(APPROVED.db, 0, CODE);
  }

  lemma Reads(r: RequestId, others: Pcs, waiting: Waiting)
    requires r !in waiting
    ensures Step(Raced(APPROVED.(pcs := others[r := LOADED]), waiting), ReadFor(r))
         == Raced(APPROVED.(pcs := others[r := LOADED]), waiting[r := SEEN_CODE])
  {
    assert HasCodeHash(APPROVED.db.codes, 0, CODE);
    Lifetimes.FindsCode(APPROVED.db, 0, CODE);
  }

  lemma Takes(others: Pcs, waiting: Waiting)
    requires 0 !in waiting
    ensures Step(Raced(APPROVED.(pcs := others[0 := LOADED]), waiting[0 := SEEN_CODE]), WriteFor(0))
         == Raced(Spending(CodeConsumed(CODE, 0, 0), false, others), waiting)
  {
    assert APPROVED.db.codes - {0} == map[];
    assert waiting[0 := SEEN_CODE] - {0} == waiting;
    assert others[0 := LOADED][0 := CodeConsumed(CODE, 0, 0)] == others[0 := CodeConsumed(CODE, 0, 0)];
  }

  lemma Locks(others: Pcs, waiting: Waiting)
    ensures Step(Raced(Spending(CodeConsumed(CODE, 0, 0), false, others), waiting), Plain(AcquireLock(0)))
         == Raced(Spending(LockHeld(CODE, 0, 0), true, others), waiting)
  {
    assert others[0 := CodeConsumed(CODE, 0, 0)][0 := LockHeld(CODE, 0, 0)] == others[0 := LockHeld(CODE, 0, 0)];
  }

  lemma Selects(others: Pcs, waiting: Waiting)
    ensures Step(Raced(Spending(LockHeld(CODE, 0, 0), true, others), waiting), Plain(SelectConnection(0)))
         == Raced(Spending(NoConnection(CODE, 0, 0), true, others), waiting)
  {
    assert others[0 := LockHeld(CODE, 0, 0)][0 := NoConnection(CODE, 0, 0)] == others[0 := NoConnection(CODE, 0, 0)];
  }

  function Minting(others: Pcs): World {
    Spending(Issuing(CODE, None, 0, 0), false, others).(
      db := CONNECTED, past := APPROVED.past.(created := map[0 := Identity(0, Some(0))]))
  }

  lemma Creates(others: Pcs, waiting: Waiting)
    requires 0 !in others
    ensures Step(Raced(Spending(NoConnection(CODE, 0, 0), true, others), waiting), Plain(CreateConnection(0, 0)))
         == Raced(Minting(others), waiting)
  {
    assert others[0 := NoConnection(CODE, 0, 0)] - {0} == others;
  }

  lemma Issues(others: Pcs, waiting: Waiting)
    requires 0 !in others
    ensures Step(Raced(Minting(others), waiting), Plain(Issue(0, 1, 2))) == Raced(ISSUED.(pcs := others), waiting)
  {
    IssuesPair(Minting(others), 0, CODE, None, 1, 2, waiting);
    assert others[0 := Issuing(CODE, None, 0, 0)] - {0} == others;
  }

  /** Request 0 spends the code, creates the connection and issues the first pair, whoever waits. */
  lemma Exchanged(others: Pcs, waiting: Waiting)
    requires 0 !in others && 0 !in waiting
    ensures RunRaced(Raced(APPROVED.(pcs := others), waiting), LEG) == Raced(ISSUED.(pcs := others), waiting)
  {
    Begins(0, others, waiting);
    Reads(0, others, waiting);
    Takes(others, waiting);
    Locks(others, waiting);
    Selects(others, waiting);
    Creates(others, waiting);
    Issues(others, waiting);
    RunThrough(LEG,
      [Raced(APPROVED.(pcs := others), waiting), Raced(APPROVED.(pcs := others[0 := LOADED]), waiting),
       Raced(APPROVED.(pcs := others[0 := LOADED]), waiting[0 := SEEN_CODE]),
       Raced(Spending(CodeConsumed(CODE, 0, 0), false, others), waiting),
       Raced(Spending(LockHeld(CODE, 0, 0), true, others), waiting),
       Raced(Spending(NoConnection(CODE, 0, 0), true, others), waiting),
       Raced(Minting(others), waiting), Raced(ISSUED.(pcs := others), waiting)]);
  }

  lemma FromConsent(moves: seq<Move>)
    ensures RunRaced(Raced(START, map[]), Lifted(CONSENT) + moves) == RunRaced(Raced(APPROVED, map[]), moves)
  {
    Consented();
    LiftedRun(START, CONSENT);
    RunRacedAppend(Raced(START, map[]), Lifted(CONSENT), moves);
  }

  // ---- one code, two families ----

  const WAITER: seq<Move> := [Plain(BeginExchange(1, 0, 0)), ReadFor(1)]
  const SECOND: seq<Move> :=
    [WriteFor(1), Plain(AcquireLock(1)), Plain(SelectConnection(1)), Plain(Issue(1, 3, 4))]

  const TWO_FAMILIES := Minted(Late(Issuing(CODE, None, 0, 0), false).w, 1, CODE, None, 3, 4)

  lemma Waits()
    ensures RunRaced(Raced(APPROVED, map[]), WAITER) == Raced(APPROVED.(pcs := map[1 := LOADED]), map[1 := SEEN_CODE])
  {
    Begins(1, map[], map[]);
    Reads(1, map[], map[]);
    RunThrough(WAITER, [Raced(APPROVED, map[]), Raced(APPROVED.(pcs := map[1 := LOADED]), map[]),
                        Raced(APPROVED.(pcs := map[1 := LOADED]), map[1 := SEEN_CODE])]);
  }

  function Late(pc: Pc, locked: bool): Raced {
    Raced(ISSUED.(pcs := map[1 := pc], locks := if locked then map[KEY := 1] else map[]), map[])
  }

  lemma LateTakes()
    ensures Step(Raced(ISSUED.(pcs := map[1 := LOADED]), map[1 := SEEN_CODE]), WriteFor(1))
         == Late(CodeConsumed(CODE, 0, 0), false)
  {
    assert map[1 := SEEN_CODE] - {1} == map[];
    assert ISSUED.db.codes - {0} == map[];
  }

  lemma LateLocks()
    ensures Step(Late(CodeConsumed(CODE, 0, 0), false), Plain(AcquireLock(1))) == Late(LockHeld(CODE, 0, 0), true)
  {
  }

  lemma LateSelects()
    ensures Step(Late(LockHeld(CODE, 0, 0), true), Plain(SelectConnection(1)))
         == Late(Issuing(CODE, None, 0, 0), false)
  {
    assert ActiveFor(ISSUED.db.conns, 0, 0, 0);
  }

  lemma LateIssues()
    ensures Step(Late(Issuing(CODE, None, 0, 0), false), Plain(Issue(1, 3, 4))) == Raced(TWO_FAMILIES, map[])
  {
    IssuesPair(Late(Issuing(CODE, None, 0, 0), false).w, 1, CODE, None, 3, 4, map[]);
  }

  lemma SecondSpends()
    ensures RunRaced(Raced(ISSUED.(pcs := map[1 := LOADED]), map[1 := SEEN_CODE]), SECOND[..3])
         == Late(Issuing(CODE, None, 0, 0), false)
  {
    LateTakes();
    LateLocks();
    LateSelects();
    RunThrough(SECOND[..3],
      [Raced(ISSUED.(pcs := map[1 := LOADED]), map[1 := SEEN_CODE]), Late(CodeConsumed(CODE, 0, 0), false),
       Late(LockHeld(CODE, 0, 0), true), Late(Issuing(CODE, None, 0, 0), false)]);
  }

  lemma SecondFamily()
    ensures RunRaced(Raced(ISSUED.(pcs := map[1 := LOADED]), map[1 := SEEN_CODE]), SECOND)
         == Raced(TWO_FAMILIES, map[])
  {
    SecondSpends();
    LateIssues();
    RunThrough(SECOND[3..], [Late(Issuing(CODE, None, 0, 0), false), Raced(TWO_FAMILIES, map[])]);
    RunRacedAppend(Raced(ISSUED.(pcs := map[1 := LOADED]), map[1 := SEEN_CODE]), SECOND[..3], SECOND[3..]);
    assert SECOND == SECOND[..3] + SECOND[3..];
  }

  lemma BothFamiliesLive()
    ensures var w := TWO_FAMILIES;
            && Live(w.db.refresh, Sha256(2)) && Live(w.db.refresh, Sha256(4))
            && Root(w.past.lineage, Sha256(2), CODE) && Root(w.past.lineage, Sha256(4), CODE)
  {
  }

  /** Two exchanges read the code before either deletes it: from an empty database, one code founds two
      families, and a refresh token of each is live. */
  lemma OneCodeTwoFamilies()
    ensures var w := RunRaced(Raced(START, map[]), Lifted(CONSENT) + (WAITER + (LEG + SECOND))).w;
            && Live(w.db.refresh, Sha256(2)) && Live(w.db.refresh, Sha256(4))
            && Root(w.past.lineage, Sha256(2), CODE) && Root(w.past.lineage, Sha256(4), CODE)
  {
    FromConsent(WAITER + (LEG + SECOND));
    Waits();
    RunRacedAppend(Raced(APPROVED, map[]), WAITER, LEG + SECOND);
    Exchanged(map[1 := LOADED], map[1 := SEEN_CODE]);
    RunRacedAppend(Raced(APPROVED.(pcs := map[1 := LOADED]), map[1 := SEEN_CODE]), LEG, SECOND);
    SecondFamily();
    BothFamiliesLive();
  }

  // ---- one refresh token, two successors ----

  const TWICE: seq<Move> :=
    [Plain(BeginRefresh(0, 2, 0)), Plain(BeginRefresh(1, 2, 0)), ReadFor(0), ReadFor(1), WriteFor(0), WriteFor(1),
     Plain(Issue(0, 3, 4)), Plain(Issue(1, 5, 6))]

  const PRESENTED := RefreshLoaded(Sha256(2))
  const SEEN := SeenToken(0, 0)
  const NEXT_PAIR := Issuing(CODE, Some(Sha256(2)), 0, 0)

  /** The two requests at their steps, the token marked or not. */
  function Rotating(pcs: Pcs, views: Waiting, mark: Option<Time>): Raced {
    Raced(ISSUED.(pcs := pcs, db := ISSUED.db.(refresh := map[Sha256(2) := Row(mark)])), views)
  }

  const BOTH_MARKED := Rotating(map[0 := NEXT_PAIR, 1 := NEXT_PAIR], map[], Some(NOW)).w
  const ONE_CHILD := Minted(BOTH_MARKED, 0, CODE, Some(Sha256(2)), 3, 4)
  const TWO_CHILDREN := Minted(ONE_CHILD, 1, CODE, Some(Sha256(2)), 5, 6)

  lemma BothPresent()
    ensures Step(Raced(ISSUED, map[]), Plain(BeginRefresh(0, 2, 0))) == Rotating(map[0 := PRESENTED], map[], None)
    ensures Step(Rotating(map[0 := PRESENTED], map[], None), Plain(BeginRefresh(1, 2, 0)))
         == Rotating(map[0 := PRESENTED, 1 := PRESENTED], map[], None)
  {
  }

  lemma BothRead()
    ensures Step(Rotating(map[0 := PRESENTED, 1 := PRESENTED], map[], None), ReadFor(0))
         == Rotating(map[0 := PRESENTED, 1 := PRESENTED], map[0 := SEEN], None)
    ensures Step(Rotating(map[0 := PRESENTED, 1 := PRESENTED], map[0 := SEEN], None), ReadFor(1))
         == Rotating(map[0 := PRESENTED, 1 := PRESENTED], map[0 := SEEN, 1 := SEEN], None)
  {
  }

  lemma FirstMarks()
    ensures Step(Rotating(map[0 := PRESENTED, 1 := PRESENTED], map[0 := SEEN, 1 := SEEN], None), WriteFor(0))
         == Rotating(map[0 := NEXT_PAIR, 1 := PRESENTED], map[1 := SEEN], Some(NOW))
  {
    assert map[0 := SEEN, 1 := SEEN] - {0} == map[1 := SEEN];
  }

  lemma SecondMarks()
    ensures Step(Rotating(map[0 := NEXT_PAIR, 1 := PRESENTED], map[1 := SEEN], Some(NOW)), WriteFor(1))
         == Rotating(map[0 := NEXT_PAIR, 1 := NEXT_PAIR], map[], Some(NOW))
  {
    assert map[1 := SEEN] - {1} == map[];
  }

  lemma FirstIssues()
    ensures Step(Raced(BOTH_MARKED, map[]), Plain(Issue(0, 3, 4))) == Raced(ONE_CHILD, map[])
  {
    IssuesPair(BOTH_MARKED, 0, CODE, Some(Sha256(2)), 3, 4, map[]);
  }

  lemma SecondIssues()
    ensures Step(Raced(ONE_CHILD, map[]), Plain(Issue(1, 5, 6))) == Raced(TWO_CHILDREN, map[])
  {
    IssuesPair(ONE_CHILD, 1, CODE, Some(Sha256(2)), 5, 6, map[]);
  }

  lemma BothMark()
    ensures RunRaced(Raced(ISSUED, map[]), TWICE[..6]) == Raced(BOTH_MARKED, map[])
  {
    BothPresent();
    BothRead();
    FirstMarks();
    SecondMarks();
    RunThrough(TWICE[..6],
      [Raced(ISSUED, map[]), Rotating(map[0 := PRESENTED], map[], None),
       Rotating(map[0 := PRESENTED, 1 := PRESENTED], map[], None),
       Rotating(map[0 := PRESENTED, 1 := PRESENTED], map[0 := SEEN], None),
       Rotating(map[0 := PRESENTED, 1 := PRESENTED], map[0 := SEEN, 1 := SEEN], None),
       Rotating(map[0 := NEXT_PAIR, 1 := PRESENTED], map[1 := SEEN], Some(NOW)), Raced(BOTH_MARKED, map[])]);
  }

  lemma RotatedTwice()
    ensures RunRaced(Raced(ISSUED, map[]), TWICE) == Raced(TWO_CHILDREN, map[])
  {
    BothMark();
    FirstIssues();
    SecondIssues();
    RunThrough(TWICE[6..], [Raced(BOTH_MARKED, map[]), Raced(ONE_CHILD, map[]), Raced(TWO_CHILDREN, map[])]);
    RunRacedAppend(Raced(ISSUED, map[]), TWICE[..6], TWICE[6..]);
    assert TWICE == TWICE[..6] + TWICE[6..];
  }

  lemma BothLive()
    ensures var w := TWO_CHILDREN;
            && Live(w.db.refresh, Sha256(4)) && Live(w.db.refresh, Sha256(6))
            && Child(w.past.lineage, Sha256(4), Sha256(2)) && Child(w.past.lineage, Sha256(6), Sha256(2))
  {
  }

  /** Two refreshes read the token before either marks it: from an empty database, one refresh token is
      replaced twice, and both successors are live. */
  lemma OneTokenTwoSuccessors()
    ensures var w := RunRaced(Raced(START, map[]), Lifted(CONSENT) + (LEG + TWICE)).w;
            && Live(w.db.refresh, Sha256(4)) && Live(w.db.refresh, Sha256(6))
            && Child(w.past.lineage, Sha256(4), Sha256(2)) && Child(w.past.lineage, Sha256(6), Sha256(2))
  {
    FromConsent(LEG + TWICE);
    Exchanged(map[], map[]);
    RunRacedAppend(Raced(APPROVED, map[]), LEG, TWICE);
    RotatedTwice();
    BothLive();
  }
}
