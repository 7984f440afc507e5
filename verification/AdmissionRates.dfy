/** What the flood limiter promises, told by requests and answers rather than by its dictionary: which requests are
    admitted, exactly, and how many on each route. */
module AdmissionRates {
  import opened Basics
  import opened WindowLog
  import opened RateLimiter

  // ---- the table of rules ----

  datatype Route = Route(verb: string, path: string)

  const RULES: map<Route, Rule> := map[
    Route("POST", "/register") := Rule("register", 5, HOUR, true),
    Route("GET", "/authorize") := Rule("oauth_coarse", 60, 5 * MINUTE, true),
    Route("POST", "/authorize") := Rule("oauth_coarse", 60, 5 * MINUTE, true),
    Route("POST", "/token") := Rule("oauth_coarse", 60, 5 * MINUTE, true),
    Route("POST", "/revoke") := Rule("oauth_coarse", 60, 5 * MINUTE, true),
    Route("POST", "/dashboard/login") := Rule("login_ip", 20, 15 * MINUTE, false),
    Route("GET", "/dashboard/auth/oidc/login") := Rule("oidc_ip", 20, 15 * MINUTE, true),
    Route("GET", "/dashboard/auth/oidc/callback") := Rule("oidc_ip", 20, 15 * MINUTE, true)]

  /** POST to a thread below /dashboard/comments/, or to the comments of an artifact. */
  ghost predicate WritesComment(verb: string, path: string) {
    && verb == "POST"
    && ((exists rest: string :: path == "/dashboard/comments/" + rest)
        || ((exists rest: string :: path == "/dashboard/a/" + rest)
            && exists front: string :: path == front + "/comments"))
  }

  lemma PrefixExactly(s: string, prefix: string)
    ensures StartsWith(s, prefix) <==> exists rest: string :: s == prefix + rest
  {
    if StartsWith(s, prefix) { assert s == prefix + s[|prefix|..]; }
  }

  lemma SuffixExactly(s: string, suffix: string)
    ensures EndsWith(s, suffix) <==> exists front: string :: s == front + suffix
  {
    if EndsWith(s, suffix) { assert s == s[..|s| - |suffix|] + suffix; }
    if front: string :| s == front + suffix { assert s[|s| - |suffix|..] == suffix; }
  }

  lemma CommentRoutesExactly(verb: string, path: string)
    ensures IsCommentRoute(verb, path) <==> WritesComment(verb, path)
  {
    PrefixExactly(path, "/dashboard/comments/");
    PrefixExactly(path, "/dashboard/a/");
    SuffixExactly(path, "/comments");
  }

  lemma FixedRulesExactly(verb: string, path: string)
    ensures FixedRule(verb, path) == if Route(verb, path) in RULES then Some(RULES[Route(verb, path)]) else None
  {
  }

  /** Which rule a request falls under: the table's, or the rule for writing comments, or none. */
  lemma RulesExactly(verb: string, path: string)
    ensures RuleFor(verb, path) ==
            if Route(verb, path) in RULES then Some(RULES[Route(verb, path)])
            else if WritesComment(verb, path) then Some(Rule("comment_ip", 30, 5 * MINUTE, true))
            else None
  {
    FixedRulesExactly(verb, path);
    CommentRoutesExactly(verb, path);
  }

  // ---- who is admitted ----

  function AfterAll(table: Table<Client>, traffic: seq<Traffic>): Table<Client>
    decreases |traffic|
  {
    if traffic == [] then table else AfterTraffic(AfterAll(table, traffic[..|traffic| - 1]), traffic[|traffic| - 1])
  }

  /** The request falls under a rule of this bucket, from this address. */
  predicate Under(t: Traffic, client: Client) {
    && !t.SweepRuns? && t.address == client.address
    && RuleFor(t.verb, t.path).Some? && RuleFor(t.verb, t.path).value.bucket == client.bucket
  }

  /** What counts against the client: for the login route the failed answers, for every other the admitted requests. */
  predicate Counts(t: Traffic, client: Client, admitted: bool) {
    Under(t, client) && if client.bucket == "login_ip" then t.Answered? && t.status != 303 else t.Arrives? && admitted
  }

  /** When something counted against the client, in order. */
  function Counted(traffic: seq<Traffic>, client: Client): seq<Time>
    decreases |traffic|
  {
    if traffic == [] then []
    else
      var before, t := traffic[..|traffic| - 1], traffic[|traffic| - 1];
      var admitted := t.Arrives? && Admits(AfterAll(map[], before), t.verb, t.path, t.address, t.now);
      Counted(before, client) + if Counts(t, client, admitted) then [t.now] else []
  }

  predicate Ordered(traffic: seq<Traffic>) {
    forall i, j | 0 <= i < j < |traffic| :: traffic[i].now <= traffic[j].now
  }

  /** The moment of the last event. */
  function Latest(traffic: seq<Traffic>, start: Time): Time {
    if traffic == [] then start else traffic[|traffic| - 1].now
  }

  ghost function LogAll(traffic: seq<Traffic>): Table<Client>
    decreases |traffic|
  {
    if traffic == [] then map[] else LogTraffic(LogAll(traffic[..|traffic| - 1]), traffic[|traffic| - 1])
  }

  lemma {:induction false} AllAgree(traffic: seq<Traffic>, start: Time)
    requires Ordered(traffic) && forall t <- traffic :: start <= t.now
    ensures Agree(AfterAll(map[], traffic), LogAll(traffic), ClientWindow(), Latest(traffic, start))
    decreases |traffic|
  {
    if traffic != [] {
      var before, t := traffic[..|traffic| - 1], traffic[|traffic| - 1];
      assert forall u <- before :: u in traffic;
      AllAgree(before, start);
      assert Latest(before, start) <= t.now;
      TrafficAgrees(AfterAll(map[], before), LogAll(before), Latest(before, start), t);
    }
  }

  /** The log holds exactly what counted. */
  lemma {:induction false} LogIsCounted(traffic: seq<Traffic>, start: Time, client: Client)
    requires Ordered(traffic) && forall t <- traffic :: start <= t.now
    ensures Get(LogAll(traffic), client) == Counted(traffic, client)
    decreases |traffic|
  {
    if traffic != [] {
      var before, t := traffic[..|traffic| - 1], traffic[|traffic| - 1];
      assert forall u <- before :: u in traffic;
      LogIsCounted(before, start, client);
      AllAgree(before, start);
      if t.Arrives? {
        AdmitsAgree(AfterAll(map[], before), LogAll(before), Latest(before, start), t.verb, t.path, t.address, t.now);
      }
      LogStep(LogAll(before), t, client);
    }
  }

  lemma LogStep(log: Table<Client>, t: Traffic, client: Client)
    ensures Get(LogTraffic(log, t), client) == Get(log, client)
            + if Counts(t, client, t.Arrives? && Admits(log, t.verb, t.path, t.address, t.now)) then [t.now] else []
  {
    if !t.SweepRuns? && RuleFor(t.verb, t.path).Some? { OneWindowPerBucket(t.verb, t.path); }
  }

  /** Over any traffic: a request is admitted exactly when it falls under no rule, or fewer than the rule's maximum
      counted against its address within the rule's window. */
  lemma AdmittedExactly(traffic: seq<Traffic>, start: Time, verb: string, path: string, address: string, now: Time)
    requires Ordered(traffic) && (forall t <- traffic :: start <= t.now) && Latest(traffic, start) <= now
    ensures Admits(AfterAll(map[], traffic), verb, path, address, now) <==>
            var rule := RuleFor(verb, path);
            rule.None? ||
            |Newer(Counted(traffic, Client(rule.value.bucket, address)), now - rule.value.window)| < rule.value.max
  {
    var rule := RuleFor(verb, path);
    if rule.Some? {
      OneWindowPerBucket(verb, path);
      AllAgree(traffic, start);
      AdmitsAgree(AfterAll(map[], traffic), LogAll(traffic), Latest(traffic, start), verb, path, address, now);
      LogIsCounted(traffic, start, Client(rule.value.bucket, address));
    }
  }
}
