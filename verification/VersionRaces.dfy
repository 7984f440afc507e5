/** What unlocked requests do to version history under every interleaving: prune_old_versions and
    delete_version read the current version, and delete later (versions.py). */
module VersionRaces {
  import opened Basics
  import opened Schema
  import opened Content
  import opened QuotaRaces
  import opened QuotaSafety
  import opened ArtifactHistory

  // ---- when the delete strikes the current row ----

  /** The DELETE spares the row that is current when it runs. */
  predicate UpToDate(artifacts: Artifacts, drop: Drop) {
    drop.a in artifacts ==>
      match drop
      case Pruning(a, read, _) => artifacts[a].version == read
      case Deleting(a, v, _, _) => artifacts[a].version != v
  }

  /** One finished prune or delete keeps the current row exactly when it is up to date, and touches no
      other artifact. */
  lemma FinishDropExactly(w: Arena, r: RequestId)
    requires r in w.drops && CurrentStored(w.db.artifacts, w.db.versions, w.drops[r].a)
    ensures var v := StepFinishDrop(w, r);
            && (CurrentStored(v.db.artifacts, v.db.versions, w.drops[r].a) <==> UpToDate(w.db.artifacts, w.drops[r]))
            && (forall k: VersionKey | k.artifact != w.drops[r].a ::
                  (k in v.db.versions <==> k in w.db.versions)
                  && (k in v.db.versions ==> v.db.versions[k] == w.db.versions[k]))
  {
  }

  // ---- every artifact's current row, over runs ----

  /** The current row is stored, and no stored version is newer. */
  predicate Sound(artifacts: Artifacts, versions: Versions, a: ArtifactId) {
    CurrentStored(artifacts, versions, a) && NoNewer(versions, a, artifacts[a].version)
  }

  predicate NoNewer(versions: Versions, a: ArtifactId, current: int) {
    forall k <- versions :: k.artifact == a ==> k.version <= current
  }

  /** Every artifact that was not reassigned has its current row. */
  ghost predicate AllCurrent(w: Arena) {
    forall a <- w.db.artifacts :: a !in w.moved ==> CurrentStored(w.db.artifacts, w.db.versions, a)
  }

  ghost predicate HistoryInv(w: Arena) {
    && UpdatesOk(w)
    && (forall k <- w.db.versions :: k.artifact in w.db.artifacts)
    && (forall a <- w.db.artifacts :: a !in w.moved ==> Sound(w.db.artifacts, w.db.versions, a))
  }

  /** `a` and its version rows are as they were. */
  ghost predicate SameHistory(w: Arena, v: Arena, a: ArtifactId) {
    && a in w.db.artifacts && a in v.db.artifacts && v.db.artifacts[a] == w.db.artifacts[a]
    && (forall k: VersionKey | k.artifact == a ::
          (k in v.db.versions <==> k in w.db.versions) && (k in v.db.versions ==> v.db.versions[k] == w.db.versions[k]))
  }

  lemma SameHistoryIsSound(w: Arena, v: Arena, a: ArtifactId)
    requires SameHistory(w, v, a) && Sound(w.db.artifacts, w.db.versions, a)
    ensures Sound(v.db.artifacts, v.db.versions, a)
  {
    var k := VersionKey(a, w.db.artifacts[a].version);
    assert k.artifact == a && k in v.db.versions && v.db.versions[k] == w.db.versions[k];
  }

  /** An event that keeps all rows of the artifacts it leaves keeps the invariant. */
  lemma OthersKeepHistory(w: Arena, v: Arena)
    requires HistoryInv(w) && UpdatesOk(v) && w.moved <= v.moved
    requires forall k <- v.db.versions :: k.artifact in v.db.artifacts
    requires forall a <- v.db.artifacts :: a !in v.moved ==> SameHistory(w, v, a)
    ensures HistoryInv(v)
  {
    forall a | a in v.db.artifacts && a !in v.moved ensures Sound(v.db.artifacts, v.db.versions, a) {
      SameHistoryIsSound(w, v, a);
    }
  }

  predicate Writing(e: Event) { e.CommitPublish? || e.CommitUpdate? || e.FinishDrop? }

  lemma QuietEventsKeepHistory(w: Arena, cfg: Config, e: Event)
    requires HistoryInv(w) && !Writing(e) && !e.RemoveArtifact? && !e.CommitReassign?
    ensures HistoryInv(Next(w, cfg, e))
  {
    NextKeepsUpdates(w, cfg, e);
    SameTables(w, cfg, e);
    OthersKeepHistory(w, Next(w, cfg, e));
  }

  lemma SameTables(w: Arena, cfg: Config, e: Event)
    requires !Writing(e) && !e.RemoveArtifact? && !e.CommitReassign?
    ensures var v := Next(w, cfg, e);
            v.db.artifacts == w.db.artifacts && v.db.versions == w.db.versions && v.moved == w.moved
  {
  }

  lemma RemovalsKeepHistory(w: Arena, cfg: Config, e: Event)
    requires HistoryInv(w) && (e.RemoveArtifact? || e.CommitReassign?)
    ensures HistoryInv(Next(w, cfg, e))
  {
    NextKeepsUpdates(w, cfg, e);
    OthersKeepHistory(w, Next(w, cfg, e));
  }

  lemma PublishKeepsHistory(w: Arena, r: RequestId, a: ArtifactId)
    requires HistoryInv(w) && r in w.pcs && w.pcs[r].Cleared? && w.pcs[r].job.Publishing?
    requires UpdatesOk(StepCommitPublish(w, r, w.pcs[r], a))
    ensures HistoryInv(StepCommitPublish(w, r, w.pcs[r], a))
  {
    var v := StepCommitPublish(w, r, w.pcs[r], a);
    forall b | b in v.db.artifacts && b !in v.moved ensures Sound(v.db.artifacts, v.db.versions, b) {
      if b in w.db.artifacts { SameHistoryIsSound(w, v, b); }
    }
  }

  lemma UpdateKeepsHistory(w: Arena, cfg: Config, r: RequestId)
    requires HistoryInv(w) && cfg.maxVersions > 0 && r in w.pcs && w.pcs[r].Cleared? && w.pcs[r].job.Updating?
    requires UpdatesOk(StepCommitUpdate(w, cfg, r, w.pcs[r]))
    ensures HistoryInv(StepCommitUpdate(w, cfg, r, w.pcs[r]))
  {
    var job, row := w.pcs[r].job, w.pcs[r].row;
    var v := StepCommitUpdate(w, cfg, r, w.pcs[r]);
    if UpdateCommit(w.db, cfg, job.a, job.base, row).Commit? {
      UpdateRetains(w.db, cfg, job.a, job.base, row);
      forall b | b in v.db.artifacts && b !in v.moved ensures Sound(v.db.artifacts, v.db.versions, b) {
        if b != job.a { SameHistoryIsSound(w, v, b); } else { UpdatedIsSound(w, cfg, r); }
      }
    } else {
      OthersKeepHistory(w, v);
    }
  }

  lemma UpdatedIsSound(w: Arena, cfg: Config, r: RequestId)
    requires HistoryInv(w) && cfg.maxVersions > 0 && r in w.pcs && w.pcs[r].Cleared? && w.pcs[r].job.Updating?
    requires w.pcs[r].job.a !in w.moved
    requires UpdateCommit(w.db, cfg, w.pcs[r].job.a, w.pcs[r].job.base, w.pcs[r].row).Commit?
    ensures var d := UpdateCommit(w.db, cfg, w.pcs[r].job.a, w.pcs[r].job.base, w.pcs[r].row).db;
            Sound(d.artifacts, d.versions, w.pcs[r].job.a)
  {
    var a, base, row := w.pcs[r].job.a, w.pcs[r].job.base, w.pcs[r].row;
    assert ReadOk(w.db.artifacts, w.first, w.moved, w.pcs[r]);
    assert NoNewer(w.db.versions, a, base);
    UpdateStoresCurrent(w.db, cfg, a, base, row);
  }

  lemma DropKeepsHistory(w: Arena, r: RequestId)
    requires HistoryInv(w) && r in w.drops && UpdatesOk(StepFinishDrop(w, r))
    requires w.drops[r].a !in w.moved ==> UpToDate(w.db.artifacts, w.drops[r])
    ensures HistoryInv(StepFinishDrop(w, r))
  {
    var v := StepFinishDrop(w, r);
    forall b | b in v.db.artifacts && b !in v.moved ensures Sound(v.db.artifacts, v.db.versions, b) {
      assert Sound(w.db.artifacts, w.db.versions, b);
      if b != w.drops[r].a { SameHistoryIsSound(w, v, b); } else { FinishDropExactly(w, r); }
    }
  }

  /** The event is no finishing drop, or one that is up to date, or one on a reassigned artifact. */
  predicate Timely(w: Arena, e: Event) {
    e.FinishDrop? && e.r in w.drops && w.drops[e.r].a !in w.moved ==> UpToDate(w.db.artifacts, w.drops[e.r])
  }

  lemma TimelyKeepsHistory(w: Arena, cfg: Config, e: Event)
    requires HistoryInv(w) && cfg.maxVersions > 0 && Timely(w, e)
    ensures HistoryInv(Next(w, cfg, e))
  {
    NextKeepsUpdates(w, cfg, e);
    match e
    case CommitPublish(r, a) =>
      if r in w.pcs && w.pcs[r].Cleared? && w.pcs[r].job.Publishing? { PublishKeepsHistory(w, r, a); }
    case CommitUpdate(r) =>
      if r in w.pcs && w.pcs[r].Cleared? && w.pcs[r].job.Updating? { UpdateKeepsHistory(w, cfg, r); }
    case FinishDrop(r) => if r in w.drops { DropKeepsHistory(w, r); }
    case _ =>
      if e.RemoveArtifact? || e.CommitReassign? {
        RemovalsKeepHistory(w, cfg, e);
      } else {
        QuietEventsKeepHistory(w, cfg, e);
      }
  }

  lemma LateDropLosesHistory(w: Arena, cfg: Config, e: Event)
    requires HistoryInv(w) && !Timely(w, e)
    ensures !AllCurrent(Next(w, cfg, e))
  {
    var a := w.drops[e.r].a;
    assert Sound(w.db.artifacts, w.db.versions, a);
    FinishDropExactly(w, e.r);
    assert a in Next(w, cfg, e).db.artifacts;
  }

  ghost predicate TimelyRun(w: Arena, cfg: Config, events: seq<Event>)
    decreases |events|
  {
    events != [] ==> Timely(w, events[0]) && TimelyRun(Next(w, cfg, events[0]), cfg, events[1..])
  }

  ghost predicate AlwaysCurrent(w: Arena, cfg: Config, events: seq<Event>)
    decreases |events|
  {
    AllCurrent(w) && (events != [] ==> AlwaysCurrent(Next(w, cfg, events[0]), cfg, events[1..]))
  }

  /** Over every interleaving: each artifact that is not reassigned has its current version's row in every
      state, equal to the live row, if and only if every prune and every delete finds, when its DELETE
      runs, that the row it is about to delete is not the current one. */
  lemma {:induction false} CurrentRowStoredExactly(w: Arena, cfg: Config, events: seq<Event>)
    requires HistoryInv(w) && cfg.maxVersions > 0
    ensures AlwaysCurrent(w, cfg, events) <==> TimelyRun(w, cfg, events)
    decreases |events|
  {
    assert AllCurrent(w);
    if events != [] {
      var v := Next(w, cfg, events[0]);
      if Timely(w, events[0]) {
        TimelyKeepsHistory(w, cfg, events[0]);
        CurrentRowStoredExactly(v, cfg, events[1..]);
      } else {
        LateDropLosesHistory(w, cfg, events[0]);
      }
    }
  }

  /** Any quiet arena whose artifacts all have their current row, and none newer, may start such a run. */
  lemma QuietHistory(w: Arena)
    requires Quiet(w) && forall k <- w.db.versions :: k.artifact in w.db.artifacts
    requires forall a <- w.db.artifacts :: Sound(w.db.artifacts, w.db.versions, a)
    ensures HistoryInv(w)
  {
    QuietUpdates(w);
  }

  // ---- what has to commit between read and delete ----

  /** How many updates of `a` were committed after the first `since` of all. */
  function UpdatesSince(wins: seq<Win>, since: nat, a: ArtifactId): nat
    requires since <= |wins|
  {
    |Bases(wins[since..], a)|
  }

  /** A drop under way remembers what was current and how much had been committed when it read. */
  ghost predicate DropOk(w: Arena, drop: Drop) {
    && drop.since <= |w.wins| && drop.a in w.first
    && (drop.Deleting? ==> drop.v != drop.read)
    && (drop.a in w.db.artifacts && drop.a !in w.moved ==>
          w.db.artifacts[drop.a].version == drop.read + UpdatesSince(w.wins, drop.since, drop.a))
  }

  ghost predicate DropsInv(w: Arena) {
    UpdatesOk(w) && forall r <- w.drops :: DropOk(w, w.drops[r])
  }

  lemma DropStays(w: Arena, v: Arena, drop: Drop)
    requires DropOk(w, drop) && v.wins == w.wins && w.moved <= v.moved
    requires forall a <- w.first :: a in v.first
    requires drop.a in v.db.artifacts && drop.a !in v.moved ==>
               drop.a in w.db.artifacts && v.db.artifacts[drop.a].version == w.db.artifacts[drop.a].version
    ensures DropOk(v, drop)
  {
  }

  lemma WinCounts(w: Arena, cfg: Config, r: RequestId, drop: Drop)
    requires UpdatesOk(w) && DropOk(w, drop) && r in w.pcs && w.pcs[r].Cleared? && w.pcs[r].job.Updating?
    ensures DropOk(StepCommitUpdate(w, cfg, r, w.pcs[r]), drop)
  {
    var job := w.pcs[r].job;
    var win := Win(job.a, job.base);
    assert ReadOk(w.db.artifacts, w.first, w.moved, w.pcs[r]);
    assert (w.wins + [win])[drop.since..] == w.wins[drop.since..] + [win];
    BasesAppend(w.wins[drop.since..], win, drop.a);
  }

  lemma BeginCounts(w: Arena, r: RequestId, u: UserId, a: ArtifactId, v: Option<int>)
    requires DropsInv(w)
    ensures var x := StepBeginDrop(w, r, u, a, v); forall q <- x.drops :: DropOk(x, x.drops[q])
  {
    var x := StepBeginDrop(w, r, u, a, v);
    assert w.wins[|w.wins|..] == [];
    forall q | q in x.drops ensures DropOk(x, x.drops[q]) {
      if q in w.drops && x.drops[q] == w.drops[q] { DropStays(w, x, w.drops[q]); }
    }
  }

  predicate Calmly(e: Event) { !e.CommitUpdate? && !e.BeginPrune? && !e.BeginDelete? }

  lemma CalmEvents(w: Arena, cfg: Config, e: Event, r: RequestId)
    requires UpdatesOk(w) && Calmly(e) && r in Next(w, cfg, e).drops
    ensures r in w.drops && Next(w, cfg, e).drops[r] == w.drops[r]
    ensures DropOk(w, w.drops[r]) ==> DropOk(Next(w, cfg, e), w.drops[r])
  {
    if DropOk(w, w.drops[r]) {
      CalmTables(w, cfg, e, w.drops[r].a);
      DropStays(w, Next(w, cfg, e), w.drops[r]);
    }
  }

  lemma CalmTables(w: Arena, cfg: Config, e: Event, a: ArtifactId)
    requires Calmly(e) && a in w.first
    ensures var v := Next(w, cfg, e);
            && v.wins == w.wins && w.moved <= v.moved && (forall b <- w.first :: b in v.first)
            && (a in v.db.artifacts && a !in v.moved ==>
                  a in w.db.artifacts && v.db.artifacts[a].version == w.db.artifacts[a].version)
  {
  }

  lemma NextKeepsDrops(w: Arena, cfg: Config, e: Event)
    requires DropsInv(w)
    ensures DropsInv(Next(w, cfg, e))
  {
    NextKeepsUpdates(w, cfg, e);
    match e
    case CommitUpdate(r) =>
      if r in w.pcs && w.pcs[r].Cleared? && w.pcs[r].job.Updating? {
        forall q | q in w.drops ensures DropOk(Next(w, cfg, e), w.drops[q]) { WinCounts(w, cfg, r, w.drops[q]); }
      }
    case BeginPrune(r, u, a) => BeginCounts(w, r, u, a, None);
    case BeginDelete(r, u, a, v) => BeginCounts(w, r, u, a, Some(v));
    case _ =>
      var x := Next(w, cfg, e);
      forall q | q in x.drops ensures DropOk(x, x.drops[q]) { CalmEvents(w, cfg, e, q); }
  }

  lemma {:induction false} RunKeepsDrops(w: Arena, cfg: Config, events: seq<Event>)
    requires DropsInv(w)
    ensures DropsInv(Run(w, cfg, events))
    decreases |events|
  {
    if events != [] {
      NextKeepsDrops(w, cfg, events[0]);
      RunKeepsDrops(Next(w, cfg, events[0]), cfg, events[1..]);
    }
  }

  /** In any state of any interleaving, for an artifact still there and never reassigned: a prune would
      delete the current row exactly when an update of that artifact was committed since it read, and a
      delete of version v exactly when the updates committed since it read made v current. */
  lemma LateExactly(w: Arena, cfg: Config, events: seq<Event>, r: RequestId)
    requires Quiet(w) && r in Run(w, cfg, events).drops
    ensures var v := Run(w, cfg, events);
            var drop := v.drops[r];
            && drop.since <= |v.wins|
            && (drop.a in v.db.artifacts && drop.a !in v.moved ==>
                  (UpToDate(v.db.artifacts, drop) <==>
                     match drop
                     case Pruning(a, _, since) => UpdatesSince(v.wins, since, a) == 0
                     case Deleting(a, n, read, since) => read + UpdatesSince(v.wins, since, a) != n))
  {
    QuietUpdates(w);
    RunKeepsDrops(w, cfg, events);
    assert DropOk(Run(w, cfg, events), Run(w, cfg, events).drops[r]);
  }
}
