/** The per-email login lockout (session_auth.py) and the order of checks in login_submit (dashboard.py). */
module LoginLockout {
  import opened Basics
  import opened WindowLog

  const MAX_ATTEMPTS := 5
  const LOCKOUT_WINDOW: Time := 15 * MINUTE

  type Email = string

  function Window(): Email -> Time { (e: Email) => LOCKOUT_WINDOW }

  datatype Answer = Welcome | TooManyAttempts | WrongCredentials

  /** Credentials decide first; the lockout only gates the failing path. */
  function Submit(table: Table<Email>, email: Email, passwordOk: bool, now: Time): Answer {
    if passwordOk then Welcome
    else if Limited(table, email, now, Window(), MAX_ATTEMPTS) then TooManyAttempts
    else WrongCredentials
  }

  function AfterSubmit(table: Table<Email>, email: Email, passwordOk: bool, now: Time): Table<Email> {
    if passwordOk then table - {email}
    else
      var pruned := Pruned(table, email, now - LOCKOUT_WINDOW);
      if Submit(table, email, passwordOk, now) == WrongCredentials then Recorded(pruned, email, now) else pruned
  }

  class Lockout {
    var failed: Table<Email>

    constructor ()
      ensures failed == map[]
    {
      failed := map[];
    }

    method IsLoginRateLimited(email: Email, now: Time) returns (limited: bool)
      modifies this
      ensures limited <==> |Newer(Get(old(failed), email), now - LOCKOUT_WINDOW)| >= MAX_ATTEMPTS
      ensures failed == Pruned(old(failed), email, now - LOCKOUT_WINDOW)
    {
      var times := Get(failed, email);
      var kept: seq<Time> := [];
      for i := 0 to |times|
        invariant kept == Newer(times[..i], now - LOCKOUT_WINDOW)
        invariant failed == old(failed)
      {
        NewerAppend(times[..i], [times[i]], now - LOCKOUT_WINDOW);
        assert times[..i + 1] == times[..i] + [times[i]];
        if times[i] > now - LOCKOUT_WINDOW { kept := kept + [times[i]]; }
      }
      assert times[..|times|] == times;
      if kept != [] {
        failed := failed[email := kept];
      } else {
        failed := failed - {email};
      }
      limited := |kept| >= MAX_ATTEMPTS;
    }

    method RecordFailedLogin(email: Email, now: Time)
      modifies this
      ensures failed == Recorded(old(failed), email, now)
    {
      if email !in failed { failed := failed[email := []]; }
      failed := failed[email := failed[email] + [now]];
    }

    method ClearFailedLogins(email: Email)
      modifies this
      ensures failed == old(failed) - {email}
    {
      failed := failed - {email};
    }

    method SweepStaleFailedLogins(now: Time) returns (removed: nat)
      modifies this
      ensures failed == Swept(old(failed), now - LOCKOUT_WINDOW)
      ensures removed == |old(failed)| - |failed|
    {
      var stale := set k | k in failed && Stale(failed[k], now - LOCKOUT_WINDOW);
      removed := |stale|;
      ghost var start := failed;
      var left := stale;
      while left != {}
        invariant left <= stale && stale <= start.Keys
        invariant failed == start - (stale - left)
        decreases |left|
      {
        var k :| k in left;
        DeleteOne(start, stale, left, k);
        failed := failed - {k};
        left := left - {k};
      }
      assert stale - left == stale;
      KeysDeleted(start, stale);
      SweptIsDeletion(start, now - LOCKOUT_WINDOW);
    }

    /** login_submit, as far as the lockout is concerned. */
    method LoginSubmit(email: Email, passwordOk: bool, now: Time) returns (answer: Answer)
      modifies this
      ensures answer == Submit(old(failed), email, passwordOk, now)
      ensures failed == AfterSubmit(old(failed), email, passwordOk, now)
    {
      if passwordOk {
        ClearFailedLogins(email);
        return Welcome;
      }
      var limited := IsLoginRateLimited(email, now);
      if limited { return TooManyAttempts; }
      RecordFailedLogin(email, now);
      return WrongCredentials;
    }
  }

  // ---- any run of logins and sweeps ----

  datatype Try =
    | Login(now: Time, email: Email, passwordOk: bool)
    | SweepRuns(now: Time)

  predicate InTime(tries: seq<Try>, now: Time)
    decreases |tries|
  {
    tries != [] ==> now <= tries[0].now && InTime(tries[1..], tries[0].now)
  }

  function AfterTry(table: Table<Email>, t: Try): Table<Email> {
    match t
    case Login(now, email, ok) => AfterSubmit(table, email, ok, now)
    case SweepRuns(now) => Swept(table, now - LOCKOUT_WINDOW)
  }

  /** Wrong guesses answered 401 since the last success, never forgotten. */
  function LogTry(log: Table<Email>, t: Try): Table<Email> {
    match t
    case Login(now, email, ok) =>
      if ok then log - {email}
      else if Submit(log, email, ok, now) == WrongCredentials then Recorded(log, email, now)
      else log
    case SweepRuns(now) => log
  }

  ghost function Answers(table: Table<Email>, tries: seq<Try>): seq<Answer>
    decreases |tries|
  {
    if tries == [] then []
    else
      var t := tries[0];
      (if t.Login? then [Submit(table, t.email, t.passwordOk, t.now)] else []) + Answers(AfterTry(table, t), tries[1..])
  }

  ghost function LogAnswers(log: Table<Email>, tries: seq<Try>): seq<Answer>
    decreases |tries|
  {
    if tries == [] then []
    else
      var t := tries[0];
      (if t.Login? then [Submit(log, t.email, t.passwordOk, t.now)] else []) + LogAnswers(LogTry(log, t), tries[1..])
  }

  lemma TryAgrees(table: Table<Email>, log: Table<Email>, now: Time, t: Try)
    requires Agree(table, log, Window(), now) && now <= t.now
    ensures Agree(AfterTry(table, t), LogTry(log, t), Window(), t.now)
    ensures t.Login? ==> Submit(table, t.email, t.passwordOk, t.now) == Submit(log, t.email, t.passwordOk, t.now)
  {
    match t
    case Login(at, email, ok) =>
      assert AgreeAt(table, log, Window(), email, at);
      if ok {
        StepAgrees(table, log, Window(), LOCKOUT_WINDOW, now, At(at, Clear(email)));
      } else {
        StepAgrees(table, log, Window(), LOCKOUT_WINDOW, now, At(at, Check(email)));
        StepAgrees(Pruned(table, email, at - LOCKOUT_WINDOW), log, Window(), LOCKOUT_WINDOW, at, At(at, Record(email)));
      }
    case SweepRuns(at) => StepAgrees(table, log, Window(), LOCKOUT_WINDOW, now, At(at, Op<Email>.Sweep));
  }

  /** Every answer is the one a never-pruned log of failures since the last success would give. */
  lemma {:induction false} LockoutRefinesLog(table: Table<Email>, log: Table<Email>, now: Time, tries: seq<Try>)
    requires Agree(table, log, Window(), now) && InTime(tries, now)
    ensures Answers(table, tries) == LogAnswers(log, tries)
    decreases |tries|
  {
    if tries != [] {
      TryAgrees(table, log, now, tries[0]);
      LockoutRefinesLog(AfterTry(table, tries[0]), LogTry(log, tries[0]), tries[0].now, tries[1..]);
    }
  }

  ghost function LogTries(log: Table<Email>, tries: seq<Try>): Table<Email>
    decreases |tries|
  {
    if tries == [] then log else LogTries(LogTry(log, tries[0]), tries[1..])
  }

  /** Since the last success, no window-length interval holds more than five answered guesses. */
  lemma {:induction false} GuessesAreRationed(log: Table<Email>, tries: seq<Try>, email: Email)
    requires NoBurst(Get(log, email), LOCKOUT_WINDOW, MAX_ATTEMPTS)
    ensures NoBurst(Get(LogTries(log, tries), email), LOCKOUT_WINDOW, MAX_ATTEMPTS)
    decreases |tries|
  {
    if tries != [] {
      var t := tries[0];
      if t.Login? && !t.passwordOk && t.email == email && Submit(log, email, false, t.now) == WrongCredentials {
        AdmitKeepsNoBurst(Get(log, email), t.now, LOCKOUT_WINDOW, MAX_ATTEMPTS);
      }
      GuessesAreRationed(LogTry(log, t), tries[1..], email);
    }
  }

  /** The owner is never locked out: whatever was tried before, the right password is welcomed and
      wipes the slate, while everyone else's record stays as it was. */
  lemma OwnerAlwaysGetsIn(table: Table<Email>, email: Email, now: Time, other: Email)
    ensures Submit(table, email, true, now) == Welcome
    ensures Get(AfterSubmit(table, email, true, now), email) == []
    ensures other != email ==> forall ok :: Get(AfterSubmit(table, email, ok, now), other) == Get(table, other)
  {
  }

  function AfterTries(table: Table<Email>, tries: seq<Try>): Table<Email>
    decreases |tries|
  {
    if tries == [] then table else AfterTries(AfterTry(table, tries[0]), tries[1..])
  }

  /** The moment of the last try. */
  function Latest(tries: seq<Try>, now: Time): Time
    decreases |tries|
  {
    if tries == [] then now else Latest(tries[1..], tries[0].now)
  }

  lemma {:induction false} TriesAgree(table: Table<Email>, log: Table<Email>, now: Time, tries: seq<Try>)
    requires Agree(table, log, Window(), now) && InTime(tries, now)
    ensures Agree(AfterTries(table, tries), LogTries(log, tries), Window(), Latest(tries, now))
    decreases |tries|
  {
    if tries != [] {
      TryAgrees(table, log, now, tries[0]);
      TriesAgree(AfterTry(table, tries[0]), LogTry(log, tries[0]), tries[0].now, tries[1..]);
    }
  }

  /** Over any run: a wrong guess is answered as wrong, and not turned away, exactly when fewer than five guesses
      since the last success were answered so within the last quarter of an hour. */
  lemma GuessAnsweredExactly(tries: seq<Try>, start: Time, email: Email, now: Time)
    requires InTime(tries, start) && Latest(tries, start) <= now
    ensures Submit(AfterTries(map[], tries), email, false, now) ==
            if |Newer(Get(LogTries(map[], tries), email), now - 15 * MINUTE)| < 5 then WrongCredentials
            else TooManyAttempts
  {
    TriesAgree(map[], map[], start, tries);
    assert AgreeAt(AfterTries(map[], tries), LogTries(map[], tries), Window(), email, now);
  }

  /** What the log gains with one try: an answered guess is added, a success wipes the slate, nothing else counts. */
  lemma GuessIsLogged(log: Table<Email>, t: Try, email: Email)
    ensures Get(LogTry(log, t), email) ==
            if !t.Login? || t.email != email then Get(log, email)
            else if t.passwordOk then []
            else if |Newer(Get(log, email), t.now - 15 * MINUTE)| < 5 then Get(log, email) + [t.now]
            else Get(log, email)
  {
  }
}
