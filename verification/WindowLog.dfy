/** Sliding windows over a log of timestamps, and a tracker that forgets.

    The specification shared by rate_limit.py and session_auth.py: what a log that is never
    pruned would decide, and why pruning and sweeping cannot be noticed. */
module WindowLog {
  import opened Basics

  /** The entries newer than `cutoff`. */
  function Newer(times: seq<Time>, cutoff: Time): seq<Time> {
    if times == [] then []
    else (if times[0] > cutoff then [times[0]] else []) + Newer(times[1..], cutoff)
  }

  /** How many entries lie in the half-open interval (from, to]. */
  function Count(times: seq<Time>, from: Time, to: Time): nat {
    if times == [] then 0
    else (if from < times[0] <= to then 1 else 0) + Count(times[1..], from, to)
  }

  lemma {:induction false} NewerAppend(a: seq<Time>, b: seq<Time>, cutoff: Time)
    ensures Newer(a + b, cutoff) == Newer(a, cutoff) + Newer(b, cutoff)
  {
    if a == [] {
      assert a + b == b;
    } else {
      assert (a + b)[1..] == a[1..] + b;
      NewerAppend(a[1..], b, cutoff);
    }
  }

  /** Pruning at one cutoff is invisible to any later one. */
  lemma {:induction false} NewerTwice(times: seq<Time>, first: Time, later: Time)
    requires first <= later
    ensures Newer(Newer(times, first), later) == Newer(times, later)
  {
    if times != [] {
      NewerTwice(times[1..], first, later);
      NewerAppend(if times[0] > first then [times[0]] else [], Newer(times[1..], first), later);
    }
  }

  /** Nothing newer than the cutoff: nothing newer than any later cutoff either. */
  lemma {:induction false} AllOld(times: seq<Time>, cutoff: Time)
    requires forall t <- times :: t <= cutoff
    ensures Newer(times, cutoff) == []
  {
    if times != [] {
      assert times[0] in times;
      assert forall t | t in times[1..] :: t in times;
      AllOld(times[1..], cutoff);
    }
  }

  lemma {:induction false} CountAppend(a: seq<Time>, b: seq<Time>, from: Time, to: Time)
    ensures Count(a + b, from, to) == Count(a, from, to) + Count(b, from, to)
  {
    if a == [] {
      assert a + b == b;
    } else {
      assert (a + b)[1..] == a[1..] + b;
      CountAppend(a[1..], b, from, to);
    }
  }

  lemma {:induction false} CountWithinNewer(times: seq<Time>, from: Time, to: Time, cutoff: Time)
    requires cutoff <= from
    ensures Count(times, from, to) <= |Newer(times, cutoff)|
  {
    if times != [] { CountWithinNewer(times[1..], from, to, cutoff); }
  }

  /** No interval (from, from + window] holds more than `max` entries. */
  ghost predicate NoBurst(times: seq<Time>, window: Time, max: nat) {
    forall from: Time :: AtMost(times, from, window, max)
  }

  predicate AtMost(times: seq<Time>, from: Time, window: Time, max: nat) {
    Count(times, from, from + window) <= max
  }

  /** Appending `now` when fewer than `max` entries are younger than the window creates no burst. */
  lemma AdmitKeepsNoBurst(times: seq<Time>, now: Time, window: Time, max: nat)
    requires NoBurst(times, window, max) && |Newer(times, now - window)| < max
    ensures NoBurst(times + [now], window, max)
  {
    forall from: Time ensures AtMost(times + [now], from, window, max) {
      CountAppend(times, [now], from, from + window);
      assert Count([now], from, from + window) == if from < now <= from + window then 1 else 0 by {
        assert [now][1..] == [];
      }
      if from < now <= from + window {
        CountWithinNewer(times, from, from + window, now - window);
      }
      assert AtMost(times, from, window, max);
    }
  }

  // ---- the tracker ----

  /** An in-memory dictionary of attempt lists; an absent key is an empty list. */
  type Table<!K> = map<K, seq<Time>>

  function Get<K>(table: Table<K>, key: K): seq<Time> {
    if key in table then table[key] else []
  }

  /** The check: prune the key's list to the window, drop the key if nothing is left. */
  function Pruned<K>(table: Table<K>, key: K, cutoff: Time): Table<K> {
    var recent := Newer(Get(table, key), cutoff);
    if recent != [] then table[key := recent] else table - {key}
  }

  function Recorded<K>(table: Table<K>, key: K, now: Time): Table<K> {
    table[key := Get(table, key) + [now]]
  }

  predicate Stale(times: seq<Time>, cutoff: Time) {
    forall t <- times :: t <= cutoff
  }

  /** The sweep: entries whose newest attempt is no newer than the cutoff disappear. */
  function Swept<K>(table: Table<K>, cutoff: Time): Table<K> {
    map k | k in table && !Stale(table[k], cutoff) :: table[k]
  }

  datatype Op<K> =
    | Check(key: K)
    | Record(key: K)
    | Clear(key: K)
    | Sweep

  /** A timestamped operation. */
  datatype Event<K> = At(now: Time, op: Op<K>)

  /** What the process does. */
  function Forget<K>(table: Table<K>, window: K -> Time, longest: Time, e: Event<K>): Table<K> {
    match e.op
    case Check(key) => Pruned(table, key, e.now - window(key))
    case Record(key) => Recorded(table, key, e.now)
    case Clear(key) => table - {key}
    case Sweep => Swept(table, e.now - longest)
  }

  /** What a log that never forgets does: only recording and an explicit clear change it. */
  function Remember<K>(log: Table<K>, e: Event<K>): Table<K> {
    match e.op
    case Record(key) => Recorded(log, key, e.now)
    case Clear(key) => log - {key}
    case _ => log
  }

  predicate Limited<K>(table: Table<K>, key: K, now: Time, window: K -> Time, max: nat) {
    |Newer(Get(table, key), now - window(key))| >= max
  }

  /** Tracker and log agree on everything any check from `now` on can still look at. */
  ghost predicate Agree<K(!new)>(table: Table<K>, log: Table<K>, window: K -> Time, now: Time) {
    forall key, at: Time | at >= now :: AgreeAt(table, log, window, key, at)
  }

  predicate AgreeAt<K>(table: Table<K>, log: Table<K>, window: K -> Time, key: K, at: Time) {
    Newer(Get(table, key), at - window(key)) == Newer(Get(log, key), at - window(key))
  }

  lemma RecordAgreesAt<K(!new)>(table: Table<K>, log: Table<K>, window: K -> Time, now: Time, key: K, at: Time)
    requires AgreeAt(table, log, window, key, at)
    ensures AgreeAt(Recorded(table, key, now), Recorded(log, key, now), window, key, at)
  {
    NewerAppend(Get(table, key), [now], at - window(key));
    NewerAppend(Get(log, key), [now], at - window(key));
  }

  /** One operation, seen at one key by one later check. */
  lemma StepAgreesAt<K(!new)>(table: Table<K>, log: Table<K>, window: K -> Time, longest: Time, e: Event<K>, key: K,
                              at: Time)
    requires AgreeAt(table, log, window, key, at) && e.now <= at && window(key) <= longest
    ensures AgreeAt(Forget(table, window, longest, e), Remember(log, e), window, key, at)
  {
    match e.op
    case Check(k) => if k == key { NewerTwice(Get(table, key), e.now - window(key), at - window(key)); }
    case Record(k) => if k == key { RecordAgreesAt(table, log, window, e.now, key, at); }
    case Clear(k) =>
    case Sweep => SweepAgreesAt(table, log, window, e.now - longest, key, at);
  }

  lemma SweepAgreesAt<K(!new)>(table: Table<K>, log: Table<K>, window: K -> Time, cutoff: Time, key: K, at: Time)
    requires AgreeAt(table, log, window, key, at) && cutoff <= at - window(key)
    ensures AgreeAt(Swept(table, cutoff), log, window, key, at)
  {
    if key in table && Stale(table[key], cutoff) { AllOld(table[key], at - window(key)); }
  }

  /** A sweep is the deletion of its stale keys. */
  lemma SweptIsDeletion<K(!new)>(table: Table<K>, cutoff: Time)
    ensures Swept(table, cutoff) == table - set k | k in table && Stale(table[k], cutoff)
  {
  }

  /** Deleting `stale` key by key: one more is gone. */
  lemma DeleteOne<K, V>(table: map<K, V>, stale: set<K>, left: set<K>, k: K)
    requires k in left && left <= stale
    ensures table - (stale - left) - {k} == table - (stale - (left - {k}))
  {
  }

  /** Deleting some of a dictionary's keys, and counting them. */
  lemma KeysDeleted<K, V>(table: map<K, V>, stale: set<K>)
    requires stale <= table.Keys
    ensures |stale| == |table| - |table - stale|
  {
    assert (table - stale).Keys == table.Keys - stale;
    assert |table.Keys| == |stale| + |table.Keys - stale|;
  }

  /** Each operation of the process is invisible next to the log, provided the clock does not run
      backwards and no window is longer than the one the sweep uses. */
  lemma StepAgrees<K(!new)>(table: Table<K>, log: Table<K>, window: K -> Time, longest: Time, now: Time, e: Event<K>)
    requires Agree(table, log, window, now) && now <= e.now
    requires forall key :: window(key) <= longest
    ensures Agree(Forget(table, window, longest, e), Remember(log, e), window, e.now)
  {
    forall key, at: Time | at >= e.now
      ensures AgreeAt(Forget(table, window, longest, e), Remember(log, e), window, key, at)
    {
      assert AgreeAt(table, log, window, key, at);
      StepAgreesAt(table, log, window, longest, e, key, at);
    }
  }

  ghost function ForgetAll<K>(table: Table<K>, window: K -> Time, longest: Time, events: seq<Event<K>>): Table<K>
    decreases |events|
  {
    if events == [] then table
    else ForgetAll(Forget(table, window, longest, events[0]), window, longest, events[1..])
  }

  ghost function RememberAll<K>(log: Table<K>, events: seq<Event<K>>): Table<K>
    decreases |events|
  {
    if events == [] then log else RememberAll(Remember(log, events[0]), events[1..])
  }

  /** The clock never runs backwards, from `now` on. */
  predicate Clocked<K>(events: seq<Event<K>>, now: Time)
    decreases |events|
  {
    events != [] ==> now <= events[0].now && Clocked(events[1..], events[0].now)
  }

  function LastTime<K>(events: seq<Event<K>>, now: Time): Time {
    if events == [] then now else events[|events| - 1].now
  }

  /** The tracker refines the unbounded log: after any mix of checks, records, clears and sweeps the
      next check decides as the log, never pruned, would. */
  lemma {:induction false} ForgettingIsInvisible<K(!new)>(table: Table<K>, log: Table<K>, window: K -> Time,
                                                          longest: Time,
                                                          now: Time, events: seq<Event<K>>, key: K, at: Time, max: nat)
    requires Agree(table, log, window, now) && Clocked(events, now) && LastTime(events, now) <= at
    requires forall k :: window(k) <= longest
    ensures Limited(ForgetAll(table, window, longest, events), key, at, window, max)
       <==> Limited(RememberAll(log, events), key, at, window, max)
    decreases |events|
  {
    if events == [] {
      assert AgreeAt(table, log, window, key, at);
    } else {
      StepAgrees(table, log, window, longest, now, events[0]);
      assert LastTime(events[1..], events[0].now) == LastTime(events, now);
      ForgettingIsInvisible(Forget(table, window, longest, events[0]), Remember(log, events[0]), window, longest,
                            events[0].now, events[1..], key, at, max);
    }
  }
}
