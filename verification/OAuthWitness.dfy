/** A run of the authorization server, from an empty database, that strands an exchange: the sweep takes
    its client between the SELECT and the INSERT of _get_or_create_connection. */
module OAuthWitness {
  import opened Basics
  import opened Schema
  import opened Content
  import opened OAuth
  import opened OAuthRuns
  import Lifetimes

  const NOW: Time := 30 * DAY
  const CODE := Sha256(0)
  const KEY := LockKey(0, 0)

  const REGISTERED := START.(
    db := EMPTY.(users := map[0 := "a@example.org"], clients := map[0 := ClientRow(0)]),
    now := NOW,
    past := START.past.(registered := map[0 := 0]))

  const APPROVED_ROW := CodeRow(0, Some(0), Some(CODE), true, NOW + AUTHORIZATION_CODE_TTL)

  const APPROVED := REGISTERED.(
    db := REGISTERED.db.(codes := map[0 := APPROVED_ROW]),
    past := REGISTERED.past.(drawn := {CODE}, approvals := map[CODE := Approval(0, 0)]))

  /** The arena once the code is spent, with the exchange at `pc`, holding its lock or not. */
  function Spent(pc: Pc, locked: bool): World {
    APPROVED.(db := REGISTERED.db, pcs := map[0 := pc], locks := if locked then map[KEY := 0] else map[])
  }

  lemma OneEvent(w: World, e: Event)
    ensures Run(w, [e]) == Next(w, e)
  {
    assert [e][1..] == [];
    assert Run(Next(w, e), []) == Next(w, e);
  }

  lemma {:induction false} RunAppend(w: World, before: seq<Event>, after: seq<Event>)
    ensures Run(w, before + after) == Run(Run(w, before), after)
    decreases |before|
  {
    if before == [] {
      assert before + after == after;
    } else {
      assert (before + after)[1..] == before[1..] + after;
      RunAppend(Next(w, before[0]), before[1..], after);
    }
  }

  lemma Then(w: World, leg: seq<Event>, mid: World, e: Event, end: World)
    requires Run(w, leg) == mid && Next(mid, e) == end
    ensures Run(w, leg + [e]) == end
  {
    RunAppend(w, leg, [e]);
    OneEvent(mid, e);
  }

  const SIGN_UP := [AddUser(0, "a@example.org"), Register(0)] + [Tick(NOW)]
  const CONSENT := SIGN_UP + [BeginAuthorize(0, 0)] + [Approve(0, 0, 0)]
  const EXCHANGE := CONSENT + [BeginExchange(0, 0, 0)] + [Consume(0)] + [AcquireLock(0)] + [SelectConnection(0)]
  const STRANDING := EXCHANGE + [SweepRows] + [CreateConnection(0, 0)]

  lemma SignedUp()
    ensures Run(START, SIGN_UP) == REGISTERED
  {
    var one := START.(db := EMPTY.(users := map[0 := "a@example.org"]));
    assert !exists v :: HasEmail(START.db.users, v, "a@example.org");
    assert Next(START, AddUser(0, "a@example.org")) == one;
    OneEvent(START, AddUser(0, "a@example.org"));
    var two := REGISTERED.(now := 0);
    assert Next(one, Register(0)) == two;
    Then(START, [AddUser(0, "a@example.org")], one, Register(0), two);
    assert [AddUser(0, "a@example.org")] + [Register(0)] == [AddUser(0, "a@example.org"), Register(0)];
    Then(START, [AddUser(0, "a@example.org"), Register(0)], two, Tick(NOW), REGISTERED);
  }

  lemma Consented()
    ensures Run(START, CONSENT) == APPROVED
  {
    SignedUp();
    var pending := CodeRow(0, None, None, false, NOW + AUTHORIZATION_CODE_TTL);
    var asked := REGISTERED.(db := REGISTERED.db.(codes := map[0 := pending]));
    Then(START, SIGN_UP, REGISTERED, BeginAuthorize(0, 0), asked);
    assert asked.db.codes[0 := APPROVED_ROW] == map[0 := APPROVED_ROW];
    Then(START, SIGN_UP + [BeginAuthorize(0, 0)], asked, Approve(0, 0, 0), APPROVED);
  }

  lemma Loads()
    ensures Next(APPROVED, BeginExchange(0, 0, 0)) == APPROVED.(pcs := map[0 := CodeLoaded(CODE, 0, Some(0))])
  {
    assert HasCodeHash(APPROVED.db.codes, 0, CODE);
    Lifetimes.FindsCode(APPROVED.db, 0, CODE);
  }

  lemma Spends()
    ensures Next(APPROVED.(pcs := map[0 := CodeLoaded(CODE, 0, Some(0))]), Consume(0))
        == Spent(CodeConsumed(CODE, 0, 0), false)
  {
    assert HasCodeHash(APPROVED.db.codes, 0, CODE);
    Lifetimes.FindsCode(APPROVED.db, 0, CODE);
    assert APPROVED.db.codes - {0} == map[];
  }

  lemma Exchanging()
    ensures Run(START, EXCHANGE) == Spent(NoConnection(CODE, 0, 0), true)
  {
    Consented();
    Loads();
    Spends();
    var loaded := APPROVED.(pcs := map[0 := CodeLoaded(CODE, 0, Some(0))]);
    Then(START, CONSENT, APPROVED, BeginExchange(0, 0, 0), loaded);
    Then(START, CONSENT + [BeginExchange(0, 0, 0)], loaded, Consume(0), Spent(CodeConsumed(CODE, 0, 0), false));
    Then(START, CONSENT + [BeginExchange(0, 0, 0)] + [Consume(0)], Spent(CodeConsumed(CODE, 0, 0), false),
         AcquireLock(0), Spent(LockHeld(CODE, 0, 0), true));
    Then(START, CONSENT + [BeginExchange(0, 0, 0)] + [Consume(0)] + [AcquireLock(0)], Spent(LockHeld(CODE, 0, 0), true),
         SelectConnection(0), Spent(NoConnection(CODE, 0, 0), true));
  }

  lemma SweptAway()
    ensures Next(Spent(NoConnection(CODE, 0, 0), true), SweepRows)
         == Spent(NoConnection(CODE, 0, 0), true).(db := REGISTERED.db.(clients := map[]))
  {
  }

  /** A client registered thirty days ago, consent given, the code spent, no connection found; the sweep runs;
      the exchange ends without a connection and without tokens, its code gone, its lock free. */
  lemma SweepStrandsARun()
    ensures var before, after := Run(START, EXCHANGE), Run(START, STRANDING);
            && 0 in before.pcs && before.pcs[0].NoConnection? && 0 in before.db.clients
            && 0 !in after.pcs && after.locks == map[] && after.db.clients == map[]
            && after.db.conns == map[] && after.db.codes == map[] && after.db.access == map[]
  {
    Exchanging();
    SweptAway();
    var stuck := Spent(NoConnection(CODE, 0, 0), true);
    var swept := stuck.(db := REGISTERED.db.(clients := map[]));
    Then(START, EXCHANGE, stuck, SweepRows, swept);
    Then(START, EXCHANGE + [SweepRows], swept, CreateConnection(0, 0), Next(swept, CreateConnection(0, 0)));
    assert Next(swept, CreateConnection(0, 0)) == Finish(swept, 0);
  }
}
