/** The per-address flood limiter of rate_limit.py. */
module RateLimiter {
  import opened Basics
  import opened WindowLog

  datatype Client = Client(bucket: string, address: string)

  datatype Rule = Rule(bucket: string, max: nat, window: Time, countOnSuccess: bool)

  const MAX_WINDOW: Time := HOUR
  const COMMENT_RULE := Rule("comment_ip", 30, 5 * MINUTE, true)

  predicate StartsWith(s: string, prefix: string) { prefix <= s }

  predicate EndsWith(s: string, suffix: string) {
    |suffix| <= |s| && s[|s| - |suffix|..] == suffix
  }

  predicate IsCommentRoute(verb: string, path: string) {
    && verb == "POST"
    && (StartsWith(path, "/dashboard/comments/")
        || (StartsWith(path, "/dashboard/a/") && EndsWith(path, "/comments")))
  }

  function FixedRule(verb: string, path: string): Option<Rule> {
    if verb == "POST" && path == "/register" then Some(Rule("register", 5, HOUR, true))
    else if (verb == "GET" || verb == "POST") && path == "/authorize" then
      Some(Rule("oauth_coarse", 60, 5 * MINUTE, true))
    else if verb == "POST" && path == "/token" then Some(Rule("oauth_coarse", 60, 5 * MINUTE, true))
    else if verb == "POST" && path == "/revoke" then Some(Rule("oauth_coarse", 60, 5 * MINUTE, true))
    else if verb == "POST" && path == "/dashboard/login" then Some(Rule("login_ip", 20, 15 * MINUTE, false))
    else if verb == "GET" && path == "/dashboard/auth/oidc/login" then Some(Rule("oidc_ip", 20, 15 * MINUTE, true))
    else if verb == "GET" && path == "/dashboard/auth/oidc/callback" then Some(Rule("oidc_ip", 20, 15 * MINUTE, true))
    else None
  }

  function RuleFor(verb: string, path: string): Option<Rule> {
    var fixed := FixedRule(verb, path);
    if fixed.None? && IsCommentRoute(verb, path) then Some(COMMENT_RULE) else fixed
  }

  function WindowOf(bucket: string): Time {
    if bucket == "register" then HOUR
    else if bucket == "login_ip" || bucket == "oidc_ip" then 15 * MINUTE
    else 5 * MINUTE
  }

  function MaxOf(bucket: string): nat {
    if bucket == "register" then 5
    else if bucket == "oauth_coarse" then 60
    else if bucket == "comment_ip" then 30
    else 20
  }

  function ClientWindow(): Client -> Time { (c: Client) => WindowOf(c.bucket) }

  /** All rules that share a bucket share its window and maximum, and only login spares successes. */
  lemma OneWindowPerBucket(verb: string, path: string)
    requires RuleFor(verb, path).Some?
    ensures var rule := RuleFor(verb, path).value;
            && rule.window == WindowOf(rule.bucket) <= MAX_WINDOW && rule.max == MaxOf(rule.bucket)
            && (rule.countOnSuccess <==> rule.bucket != "login_ip")
  {
  }

  // ---- the dictionary ----

  method Recent(times: seq<Time>, cutoff: Time) returns (recent: seq<Time>)
    ensures recent == Newer(times, cutoff)
  {
    recent := [];
    for i := 0 to |times|
      invariant recent == Newer(times[..i], cutoff)
    {
      NewerAppend(times[..i], [times[i]], cutoff);
      assert times[..i + 1] == times[..i] + [times[i]];
      if times[i] > cutoff { recent := recent + [times[i]]; }
    }
    assert times[..|times|] == times;
  }

  class Limiter {
    var attempts: Table<Client>

    constructor ()
      ensures attempts == map[]
    {
      attempts := map[];
    }

    /** is_rate_limited: decide, and forget what can no longer matter for this key. */
    method IsRateLimited(client: Client, max: nat, window: Time, now: Time) returns (limited: bool)
      modifies this
      ensures limited <==> |Newer(Get(old(attempts), client), now - window)| >= max
      ensures attempts == Pruned(old(attempts), client, now - window)
    {
      var kept := Recent(Get(attempts, client), now - window);
      if kept != [] {
        attempts := attempts[client := kept];
      } else {
        attempts := attempts - {client};
      }
      limited := |kept| >= max;
    }

    method RecordAttempt(client: Client, now: Time)
      modifies this
      ensures attempts == Recorded(old(attempts), client, now)
    {
      if client !in attempts { attempts := attempts[client := []]; }
      attempts := attempts[client := attempts[client] + [now]];
    }

    /** sweep_stale_attempts: collect the stale keys, then delete them one by one. */
    method SweepStaleAttempts(now: Time) returns (removed: nat)
      modifies this
      ensures attempts == Swept(old(attempts), now - MAX_WINDOW)
      ensures removed == |old(attempts)| - |attempts|
    {
      var cutoff := now - MAX_WINDOW;
      var stale := set k | k in attempts && Stale(attempts[k], cutoff);
      removed := |stale|;
      ghost var start := attempts;
      var left := stale;
      while left != {}
        invariant left <= stale && stale <= start.Keys
        invariant attempts == start - (stale - left)
        decreases |left|
      {
        var k :| k in left;
        DeleteOne(start, stale, left, k);
        attempts := attempts - {k};
        left := left - {k};
      }
      assert stale - left == stale;
      KeysDeleted(start, stale);
      SweptIsDeletion(start, cutoff);
    }

    /** The admission half of dispatch: which requests reach the application at all. */
    method Admit(verb: string, path: string, address: string, now: Time) returns (admitted: bool)
      modifies this
      ensures admitted == Admits(old(attempts), verb, path, address, now)
      ensures attempts == AfterArrival(old(attempts), verb, path, address, now)
    {
      var rule := RuleFor(verb, path);
      if rule.None? { return true; }
      OneWindowPerBucket(verb, path);
      var client := Client(rule.value.bucket, address);
      var limited := IsRateLimited(client, rule.value.max, rule.value.window, now);
      if limited { return false; }
      if rule.value.countOnSuccess { RecordAttempt(client, now); }
      return true;
    }

    /** The other half, for login only: a failed answer is counted when it is sent. */
    method CountAnswer(verb: string, path: string, address: string, status: nat, now: Time)
      modifies this
      ensures attempts == AfterAnswer(old(attempts), verb, path, address, status, now)
    {
      var rule := RuleFor(verb, path);
      if rule.Some? && !rule.value.countOnSuccess && status != 303 {
        RecordAttempt(Client(rule.value.bucket, address), now);
      }
    }
  }

  // ---- dispatch as a function of the dictionary ----

  predicate Admits(table: Table<Client>, verb: string, path: string, address: string, now: Time) {
    var rule := RuleFor(verb, path);
    rule.Some? ==>
      !Limited(table, Client(rule.value.bucket, address), now, ClientWindow(), rule.value.max)
  }

  function AfterArrival(table: Table<Client>, verb: string, path: string, address: string, now: Time): Table<Client> {
    var rule := RuleFor(verb, path);
    if rule.None? then table
    else
      var client := Client(rule.value.bucket, address);
      var pruned := Pruned(table, client, now - rule.value.window);
      if Admits(table, verb, path, address, now) && rule.value.countOnSuccess
      then Recorded(pruned, client, now) else pruned
  }

  function AfterAnswer(table: Table<Client>, verb: string, path: string, address: string, status: nat,
                       now: Time): Table<Client> {
    var rule := RuleFor(verb, path);
    if rule.Some? && !rule.value.countOnSuccess && status != 303
    then Recorded(table, Client(rule.value.bucket, address), now)
    else table
  }

  datatype Traffic =
    | Arrives(now: Time, verb: string, path: string, address: string)
    | Answered(now: Time, verb: string, path: string, address: string, status: nat)
    | SweepRuns(now: Time)

  predicate InTime(traffic: seq<Traffic>, now: Time)
    decreases |traffic|
  {
    traffic != [] ==> now <= traffic[0].now && InTime(traffic[1..], traffic[0].now)
  }

  function AfterTraffic(table: Table<Client>, t: Traffic): Table<Client> {
    match t
    case Arrives(now, verb, path, address) => AfterArrival(table, verb, path, address, now)
    case Answered(now, verb, path, address, status) => AfterAnswer(table, verb, path, address, status, now)
    case SweepRuns(now) => Swept(table, now - MAX_WINDOW)
  }

  /** The same traffic against a log that is only ever appended to. */
  function LogTraffic(log: Table<Client>, t: Traffic): Table<Client> {
    match t
    case Arrives(now, verb, path, address) =>
      var rule := RuleFor(verb, path);
      if rule.Some? && rule.value.countOnSuccess && Admits(log, verb, path, address, now)
      then Recorded(log, Client(rule.value.bucket, address), now) else log
    case Answered(now, verb, path, address, status) => AfterAnswer(log, verb, path, address, status, now)
    case SweepRuns(now) => log
  }

  /** Whether each arrival is admitted. */
  ghost function Decisions(table: Table<Client>, traffic: seq<Traffic>): seq<bool>
    decreases |traffic|
  {
    if traffic == [] then []
    else
      var t := traffic[0];
      (if t.Arrives? then [Admits(table, t.verb, t.path, t.address, t.now)] else [])
      + Decisions(AfterTraffic(table, t), traffic[1..])
  }

  ghost function LogDecisions(log: Table<Client>, traffic: seq<Traffic>): seq<bool>
    decreases |traffic|
  {
    if traffic == [] then []
    else
      var t := traffic[0];
      (if t.Arrives? then [Admits(log, t.verb, t.path, t.address, t.now)] else [])
      + LogDecisions(LogTraffic(log, t), traffic[1..])
  }

  lemma WindowsBounded()
    ensures forall c: Client :: ClientWindow()(c) <= MAX_WINDOW
  {
  }

  lemma AdmitsAgree(table: Table<Client>, log: Table<Client>, now: Time, verb: string, path: string, address: string,
                    at: Time)
    requires Agree(table, log, ClientWindow(), now) && now <= at
    ensures Admits(table, verb, path, address, at) <==> Admits(log, verb, path, address, at)
  {
    var rule := RuleFor(verb, path);
    if rule.Some? {
      assert AgreeAt(table, log, ClientWindow(), Client(rule.value.bucket, address), at);
    }
  }

  lemma ArrivalAgrees(table: Table<Client>, log: Table<Client>, now: Time, t: Traffic)
    requires Agree(table, log, ClientWindow(), now) && now <= t.now && t.Arrives?
    ensures Agree(AfterTraffic(table, t), LogTraffic(log, t), ClientWindow(), t.now)
  {
    var w := ClientWindow();
    WindowsBounded();
    AdmitsAgree(table, log, now, t.verb, t.path, t.address, t.now);
    var rule := RuleFor(t.verb, t.path);
    if rule.Some? {
      OneWindowPerBucket(t.verb, t.path);
      var client := Client(rule.value.bucket, t.address);
      StepAgrees(table, log, w, MAX_WINDOW, now, At(t.now, Check(client)));
      StepAgrees(Pruned(table, client, t.now - w(client)), log, w, MAX_WINDOW, t.now, At(t.now, Record(client)));
    } else {
      Later(table, log, now, t.now);
    }
  }

  lemma TrafficAgrees(table: Table<Client>, log: Table<Client>, now: Time, t: Traffic)
    requires Agree(table, log, ClientWindow(), now) && now <= t.now
    ensures Agree(AfterTraffic(table, t), LogTraffic(log, t), ClientWindow(), t.now)
  {
    var w := ClientWindow();
    match t
    case Arrives(_, _, _, _) => ArrivalAgrees(table, log, now, t);
    case Answered(at, verb, path, address, status) =>
      Later(table, log, now, at);
      var rule := RuleFor(verb, path);
      if rule.Some? { StepAgrees(table, log, w, MAX_WINDOW, now, At(at, Record(Client(rule.value.bucket, address)))); }
    case SweepRuns(at) =>
      WindowsBounded();
      StepAgrees(table, log, w, MAX_WINDOW, now, At(at, Op<Client>.Sweep));
  }

  lemma Later(table: Table<Client>, log: Table<Client>, now: Time, at: Time)
    requires Agree(table, log, ClientWindow(), now) && now <= at
    ensures Agree(table, log, ClientWindow(), at)
  {
  }

  /** Whatever mix of requests, login answers and sweeps: every admission decision is the one a log
      that is never pruned or swept would give. */
  lemma {:induction false} LimiterRefinesLog(table: Table<Client>, log: Table<Client>, now: Time, traffic: seq<Traffic>)
    requires Agree(table, log, ClientWindow(), now) && InTime(traffic, now)
    ensures Decisions(table, traffic) == LogDecisions(log, traffic)
    decreases |traffic|
  {
    if traffic != [] {
      var t := traffic[0];
      if t.Arrives? { AdmitsAgree(table, log, now, t.verb, t.path, t.address, t.now); }
      TrafficAgrees(table, log, now, t);
      LimiterRefinesLog(AfterTraffic(table, t), LogTraffic(log, t), t.now, traffic[1..]);
    }
  }

  // ---- the promised rate ----

  ghost function AdmittedNow(table: Table<Client>, t: Traffic, client: Client): seq<Time> {
    if t.Arrives? && t.address == client.address && RuleFor(t.verb, t.path).Some?
       && RuleFor(t.verb, t.path).value.bucket == client.bucket && Admits(table, t.verb, t.path, t.address, t.now)
    then [t.now] else []
  }

  /** When the limiter admitted requests of `client`, in order. */
  ghost function Admitted(table: Table<Client>, traffic: seq<Traffic>, client: Client): seq<Time>
    decreases |traffic|
  {
    if traffic == [] then []
    else AdmittedNow(table, traffic[0], client) + Admitted(AfterTraffic(table, traffic[0]), traffic[1..], client)
  }

  lemma {:induction false} AdmittedNoBurst(table: Table<Client>, log: Table<Client>, now: Time, traffic: seq<Traffic>,
                                           client: Client)
    requires Agree(table, log, ClientWindow(), now) && InTime(traffic, now) && client.bucket != "login_ip"
    requires NoBurst(Get(log, client), WindowOf(client.bucket), MaxOf(client.bucket))
    ensures NoBurst(Get(log, client) + Admitted(table, traffic, client), WindowOf(client.bucket), MaxOf(client.bucket))
    decreases |traffic|
  {
    if traffic == [] {
      assert Get(log, client) + [] == Get(log, client);
    } else {
      var t := traffic[0];
      var log' := LogTraffic(log, t);
      TrafficAgrees(table, log, now, t);
      OneRequestNoBurst(table, log, now, t, client);
      AdmittedNoBurst(AfterTraffic(table, t), log', t.now, traffic[1..], client);
      Reassociate(Get(log, client), AdmittedNow(table, t, client),
                  Admitted(AfterTraffic(table, t), traffic[1..], client));
    }
  }

  lemma Reassociate(a: seq<Time>, b: seq<Time>, c: seq<Time>)
    ensures a + (b + c) == (a + b) + c
  {
  }

  lemma OneRequestNoBurst(table: Table<Client>, log: Table<Client>, now: Time, t: Traffic, client: Client)
    requires Agree(table, log, ClientWindow(), now) && now <= t.now && client.bucket != "login_ip"
    requires NoBurst(Get(log, client), WindowOf(client.bucket), MaxOf(client.bucket))
    ensures Get(LogTraffic(log, t), client) == Get(log, client) + AdmittedNow(table, t, client)
    ensures NoBurst(Get(LogTraffic(log, t), client), WindowOf(client.bucket), MaxOf(client.bucket))
  {
    if t.Arrives? { AdmitsAgree(table, log, now, t.verb, t.path, t.address, t.now); }
    AdmittedStep(table, log, t, client);
    if AdmittedNow(table, t, client) == [] {
      assert Get(log, client) + [] == Get(log, client);
    } else {
      OneWindowPerBucket(t.verb, t.path);
      AdmitKeepsNoBurst(Get(log, client), t.now, WindowOf(client.bucket), MaxOf(client.bucket));
    }
  }

  /** The log gains exactly the requests that were admitted. */
  lemma AdmittedStep(table: Table<Client>, log: Table<Client>, t: Traffic, client: Client)
    requires client.bucket != "login_ip"
    requires t.Arrives? ==>
        (Admits(table, t.verb, t.path, t.address, t.now) <==> Admits(log, t.verb, t.path, t.address, t.now))
    ensures Get(LogTraffic(log, t), client) == Get(log, client) + AdmittedNow(table, t, client)
  {
    if t.Arrives? && RuleFor(t.verb, t.path).Some? { OneWindowPerBucket(t.verb, t.path); }
    if t.Answered? && RuleFor(t.verb, t.path).Some? { OneWindowPerBucket(t.verb, t.path); }
  }

  /** For every rule that counts every request, and every address: no interval of the length of the
      window holds more admitted requests than the maximum, over any traffic since start-up. */
  lemma RateIsRespected(traffic: seq<Traffic>, start: Time, client: Client, from: Time)
    requires InTime(traffic, start) && client.bucket != "login_ip"
    ensures Count(Admitted(map[], traffic, client), from, from + WindowOf(client.bucket)) <= MaxOf(client.bucket)
  {
    var none: Table<Client> := map[];
    var admitted := Admitted(none, traffic, client);
    AdmittedNoBurst(none, none, start, traffic, client);
    assert Get(none, client) + admitted == admitted;
    assert AtMost(admitted, from, WindowOf(client.bucket), MaxOf(client.bucket));
  }
}
