/** Single use of a sign-in state although used states are forgotten (oidc_state.py, dashboard.py). */
module OidcStates {
  import WindowLog

  const MAX_AGE: real := 600.0

  type State = string

  // ---- the tracker ----

  function SweptStates(used: map<State, real>, now: real): map<State, real> {
    map s | s in used && used[s] > now - MAX_AGE :: used[s]
  }

  class UsedStates {
    var used: map<State, real>

    constructor ()
      ensures used == map[]
    {
      used := map[];
    }

    method MarkStateUsed(state: State, now: real)
      modifies this
      ensures used == old(used)[state := now]
    {
      used := used[state := now];
    }

    predicate IsStateUsed(state: State)
      reads this
    {
      state in used
    }

    method SweepStaleUsedStates(now: real) returns (removed: nat)
      modifies this
      ensures used == SweptStates(old(used), now)
      ensures removed == |old(used)| - |used|
    {
      var stale := set s | s in used && used[s] <= now - MAX_AGE;
      removed := |stale|;
      ghost var start := used;
      var left := stale;
      while left != {}
        invariant left <= stale && stale <= start.Keys
        invariant used == start - (stale - left)
        decreases |left|
      {
        var s :| s in left;
        WindowLog.DeleteOne(start, stale, left, s);
        used := used - {s};
        left := left - {s};
      }
      assert stale - left == stale;
      WindowLog.KeysDeleted(start, stale);
    }

    /** The gate of oidc_callback for a cookie issued at `iat` that carries `state`. */
    method PassGate(state: State, iat: real, now: real) returns (passes: bool)
      modifies this
      ensures passes == Passes(old(used), state, iat, now)
      ensures used == if passes then old(used)[state := now] else old(used)
    {
      if now - iat > MAX_AGE { return false; }
      if IsStateUsed(state) { return false; }
      MarkStateUsed(state, now);
      return true;
    }
  }

  /** The cookie is young enough and its state is not on the list. */
  predicate Passes(used: map<State, real>, state: State, iat: real, now: real) {
    !(now - iat > MAX_AGE) && state !in used
  }

  // ---- runs ----

  datatype Event =
    | Callback(now: real, state: State, iat: real)
    | SweepRuns(now: real)

  function Step(used: map<State, real>, e: Event): map<State, real> {
    match e
    case Callback(now, state, iat) => if Passes(used, state, iat, now) then used[state := now] else used
    case SweepRuns(now) => SweptStates(used, now)
  }

  ghost function Run(used: map<State, real>, events: seq<Event>): map<State, real>
    decreases |events|
  {
    if events == [] then used else Run(Step(used, events[0]), events[1..])
  }

  predicate InTime(events: seq<Event>, now: real)
    decreases |events|
  {
    events != [] ==> now <= events[0].now && InTime(events[1..], events[0].now)
  }

  /** Every callback of `state` presents the cookie issued for it; states are drawn fresh. */
  predicate CookieOf(events: seq<Event>, state: State, iat: real) {
    forall e <- events :: e.Callback? && e.state == state ==> e.iat == iat
  }

  ghost function PassCount(used: map<State, real>, events: seq<Event>, state: State): nat
    decreases |events|
  {
    if events == [] then 0
    else
      (if events[0].Callback? && events[0].state == state && Passes(used, state, events[0].iat, events[0].now)
       then 1 else 0)
      + PassCount(Step(used, events[0]), events[1..], state)
  }

  /** Past its lifetime a cookie never passes. */
  lemma {:induction false} ExpiredNeverPasses(used: map<State, real>, events: seq<Event>, state: State, iat: real,
                                              now: real)
    requires InTime(events, now) && CookieOf(events, state, iat) && now > iat + MAX_AGE
    ensures PassCount(used, events, state) == 0
    decreases |events|
  {
    if events != [] {
      assert events[0] in events;
      assert forall e <- events[1..] :: e in events;
      ExpiredNeverPasses(Step(used, events[0]), events[1..], state, iat, events[0].now);
    }
  }

  /** Used at a time strictly after issue: it never passes again, however often the list is swept. */
  lemma {:induction false} UsedNeverPassesAgain(used: map<State, real>, events: seq<Event>, state: State, iat: real,
                                                now: real)
    requires InTime(events, now) && CookieOf(events, state, iat)
    requires state in used && used[state] > iat
    ensures PassCount(used, events, state) == 0
    decreases |events|
  {
    if events != [] {
      assert events[0] in events;
      assert forall e <- events[1..] :: e in events;
      var next := Step(used, events[0]);
      if state in next {
        UsedNeverPassesAgain(next, events[1..], state, iat, events[0].now);
      } else {
        ExpiredNeverPasses(next, events[1..], state, iat, events[0].now);
      }
    }
  }

  /** Strictly later than its issue, as long as no callback falls on the very instant of issue. */
  predicate NotAtIssue(events: seq<Event>, state: State, iat: real) {
    forall e <- events :: e.Callback? && e.state == state ==> e.now > iat
  }

  /** A state passes the gate at most once in any run with a non-decreasing clock. */
  lemma {:induction false} AtMostOnePass(used: map<State, real>, events: seq<Event>, state: State, iat: real, now: real)
    requires InTime(events, now) && CookieOf(events, state, iat) && NotAtIssue(events, state, iat)
    ensures PassCount(used, events, state) <= 1
    decreases |events|
  {
    if events != [] {
      assert events[0] in events;
      assert forall e <- events[1..] :: e in events;
      if events[0].Callback? && events[0].state == state && Passes(used, state, events[0].iat, events[0].now) {
        UsedNeverPassesAgain(Step(used, events[0]), events[1..], state, iat, events[0].now);
      } else {
        AtMostOnePass(Step(used, events[0]), events[1..], state, iat, events[0].now);
      }
    }
  }

  /** Exactly when a first pass at `at` can be followed by a second: when it happened at the very
      instant of issue. Then a sweep and a callback 600 seconds later suffice, because the sweep
      drops at 600 seconds and the reader still accepts at 600 seconds. */
  lemma SecondPassExactly(used: map<State, real>, state: State, iat: real, at: real)
    requires Passes(used, state, iat, at) && iat <= at
    ensures (exists later: seq<Event> ::
               InTime(later, at) && CookieOf(later, state, iat)
               && PassCount(Step(used, Callback(at, state, iat)), later, state) > 0)
       <==> at == iat
  {
    var marked := Step(used, Callback(at, state, iat));
    if at == iat {
      var end := iat + MAX_AGE;
      var later := [SweepRuns(end), Callback(end, state, iat)];
      assert later[1..] == [Callback(end, state, iat)];
      assert later[1..][1..] == [];
      assert state !in Step(marked, later[0]);
      assert InTime(later, at) && CookieOf(later, state, iat);
      assert PassCount(marked, later, state) > 0;
    } else {
      forall later: seq<Event> | InTime(later, at) && CookieOf(later, state, iat)
        ensures PassCount(marked, later, state) == 0
      {
        UsedNeverPassesAgain(marked, later, state, iat, at);
      }
    }
  }

  /** A state that has not passed is not on the list. */
  lemma {:induction false} UnpassedIsUnused(used: map<State, real>, events: seq<Event>, state: State)
    requires state !in used && PassCount(used, events, state) == 0
    ensures state !in Run(used, events)
    decreases |events|
  {
    if events != [] {
      UnpassedIsUnused(Step(used, events[0]), events[1..], state);
    }
  }

  /** The first callback gets through: after any run in which the state has not passed, it passes exactly while its
      cookie is at most 600 seconds old, and then it has passed. */
  lemma FirstPassExactly(used: map<State, real>, events: seq<Event>, state: State, iat: real, now: real)
    requires state !in used && PassCount(used, events, state) == 0
    ensures Passes(Run(used, events), state, iat, now) <==> now <= iat + 600.0
    ensures now <= iat + 600.0 ==>
              var after := Step(Run(used, events), Callback(now, state, iat));
              state in after && forall later :: !Passes(after, state, iat, later)
  {
    UnpassedIsUnused(used, events, state);
  }
}
