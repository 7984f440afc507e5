/** What a connection stores and shows under every interleaving, reassignments included: the bound on stored
    bytes that always holds, and exactly when the live bytes stay within the cap. */
module StorageRaces {
  import opened Basics
  import opened Schema
  import opened Content
  import opened Totals
  import opened QuotaRaces
  import opened QuotaSafety
  import ArtifactHistory
  import Quotas
  import Retention
  import VersionRaces

  // ---- stored bytes, whatever happens ----

  /** No artifact has more version rows than the cap. */
  ghost predicate FewVersions(artifacts: Artifacts, versions: Versions, n: nat) {
    forall a <- artifacts :: |VersionsOf(versions, a)| <= n
  }

  ghost predicate SmallPcs(pcs: Pcs, cfg: Config) {
    forall r <- pcs :: pcs[r].Cleared? ==> pcs[r].row.byteSize <= cfg.maxArtifactBytes
  }

  ghost predicate RowsInv(w: Arena, cfg: Config) {
    && (forall k <- w.db.versions :: k.artifact in w.db.artifacts)
    && Quotas.RowsSmall(w.db.versions, cfg) && SmallPcs(w.pcs, cfg)
    && FewVersions(w.db.artifacts, w.db.versions, cfg.maxVersions)
  }

  /** Rows that only go away keep all of that. */
  lemma FewerRowsKeep(w: Arena, v: Arena, cfg: Config)
    requires RowsInv(w, cfg) && OnlyFewer(w, v, cfg)
    ensures RowsInv(v, cfg)
  {
    forall a | a in v.db.artifacts ensures |VersionsOf(v.db.versions, a)| <= cfg.maxVersions {
      Retention.SubsetSizeOf(VersionsOf(v.db.versions, a), VersionsOf(w.db.versions, a));
    }
  }

  lemma CheckKeepsSmall(w: Arena, cfg: Config, r: RequestId)
    requires SmallPcs(w.pcs, cfg) && r in w.pcs
    ensures SmallPcs(StepCheck(w, cfg, r, w.pcs[r]).pcs, cfg)
  {
  }

  lemma PublishKeepsRows(w: Arena, cfg: Config, r: RequestId, a: ArtifactId)
    requires RowsInv(w, cfg) && cfg.maxVersions > 0 && r in w.pcs && w.pcs[r].Cleared? && w.pcs[r].job.Publishing?
    ensures RowsInv(StepCommitPublish(w, r, w.pcs[r], a), cfg)
  {
    var v := StepCommitPublish(w, r, w.pcs[r], a);
    if a !in w.first && PublishCommit(w.db, w.pcs[r].job.c, a, w.pcs[r].row).Commit? {
      forall b | b in v.db.artifacts ensures |VersionsOf(v.db.versions, b)| <= cfg.maxVersions {
        if b == a {
          assert VersionsOf(v.db.versions, a) <= {1};
          Retention.SubsetSizeOf(VersionsOf(v.db.versions, a), {1});
        } else {
          Retention.SubsetSizeOf(VersionsOf(v.db.versions, b), VersionsOf(w.db.versions, b));
        }
      }
    } else {
      FewerRowsKeep(w, v, cfg);
    }
  }

  lemma UpdateKeepsRows(w: Arena, cfg: Config, r: RequestId)
    requires RowsInv(w, cfg) && r in w.pcs && w.pcs[r].Cleared? && w.pcs[r].job.Updating?
    ensures RowsInv(StepCommitUpdate(w, cfg, r, w.pcs[r]), cfg)
  {
    var job, row := w.pcs[r].job, w.pcs[r].row;
    var v := StepCommitUpdate(w, cfg, r, w.pcs[r]);
    if UpdateCommit(w.db, cfg, job.a, job.base, row).Commit? {
      ArtifactHistory.UpdateRetains(w.db, cfg, job.a, job.base, row);
      forall b | b in v.db.artifacts ensures |VersionsOf(v.db.versions, b)| <= cfg.maxVersions {
        if b != job.a { Retention.SubsetSizeOf(VersionsOf(v.db.versions, b), VersionsOf(w.db.versions, b)); }
      }
    } else {
      FewerRowsKeep(w, v, cfg);
    }
  }

  /** Rows of `v` are rows of `w`, and no artifact is new. */
  ghost predicate OnlyFewer(w: Arena, v: Arena, cfg: Config) {
    && (forall k <- v.db.versions ::
          k in w.db.versions && v.db.versions[k] == w.db.versions[k] && k.artifact in v.db.artifacts)
    && (forall a <- v.db.artifacts :: a in w.db.artifacts)
    && SmallPcs(v.pcs, cfg)
  }

  lemma MovesAreFewer(w: Arena, cfg: Config, e: Event)
    requires RowsInv(w, cfg) && (Moving(e) || e.Load? || e.BeginReassign?)
    ensures OnlyFewer(w, Next(w, cfg, e), cfg)
  {
  }

  lemma DropsAreFewer(w: Arena, cfg: Config, e: Event)
    requires RowsInv(w, cfg) && (Dropping(e) || e.CommitReassign?)
    ensures OnlyFewer(w, Next(w, cfg, e), cfg)
  {
  }

  lemma OthersKeepRows(w: Arena, cfg: Config, e: Event)
    requires RowsInv(w, cfg) && !e.CommitPublish? && !e.CommitUpdate? && !e.Check?
    ensures RowsInv(Next(w, cfg, e), cfg)
  {
    if Dropping(e) || e.CommitReassign? { DropsAreFewer(w, cfg, e); } else { MovesAreFewer(w, cfg, e); }
    FewerRowsKeep(w, Next(w, cfg, e), cfg);
  }

  lemma CheckKeepsRows(w: Arena, cfg: Config, r: RequestId)
    requires RowsInv(w, cfg)
    ensures RowsInv(Next(w, cfg, Check(r)), cfg)
  {
    if r in w.pcs {
      var v := StepCheck(w, cfg, r, w.pcs[r]);
      CheckKeepsSmall(w, cfg, r);
      assert v.db == w.db;
      FewerRowsKeep(w, v, cfg);
    }
  }

  lemma NextKeepsRows(w: Arena, cfg: Config, e: Event)
    requires RowsInv(w, cfg) && cfg.maxVersions > 0
    ensures RowsInv(Next(w, cfg, e), cfg)
  {
    match e
    case Check(r) => CheckKeepsRows(w, cfg, r);
    case CommitPublish(r, a) =>
      if r in w.pcs && w.pcs[r].Cleared? && w.pcs[r].job.Publishing? { PublishKeepsRows(w, cfg, r, a); }
    case CommitUpdate(r) =>
      if r in w.pcs && w.pcs[r].Cleared? && w.pcs[r].job.Updating? { UpdateKeepsRows(w, cfg, r); }
    case _ => OthersKeepRows(w, cfg, e);
  }

  /** Over every interleaving, reassignments included, no connection ever stores more than count cap x version
      cap x per-artifact cap bytes. */
  lemma {:induction false} StoredBytesAlwaysBounded(w: Arena, cfg: Config, events: seq<Event>, c: ConnId)
    requires CountInv(w, cfg) && RowsInv(w, cfg) && cfg.maxVersions > 0
    ensures StoredBytes(Run(w, cfg, events).db, c) <= cfg.maxArtifacts * cfg.maxVersions * cfg.maxArtifactBytes
    decreases |events|
  {
    if events == [] {
      Quotas.StoredWithinRows(w.db.artifacts, w.db.versions, cfg, c);
    } else {
      NextKeepsCount(w, cfg, events[0]);
      NextKeepsRows(w, cfg, events[0]);
      StoredBytesAlwaysBounded(Next(w, cfg, events[0]), cfg, events[1..], c);
    }
  }

  /** Any quiet arena whose rows are within the caps may start such a run. */
  lemma QuietRows(w: Arena, cfg: Config)
    requires Quiet(w) && Quotas.RowsSmall(w.db.versions, cfg)
    requires forall k <- w.db.versions :: k.artifact in w.db.artifacts
    requires FewVersions(w.db.artifacts, w.db.versions, cfg.maxVersions)
    ensures RowsInv(w, cfg)
  {
  }

  // ---- live bytes ----

  ghost predicate LiveOk(artifacts: Artifacts, cap: nat) {
    forall c :: Total(Quotas.CurrentRows(artifacts, c)) <= cap
  }

  /** The artifact row that the event writes, if it writes one. */
  function Landing(w: Arena, cfg: Config, e: Event): Option<(ArtifactId, ArtifactRow)> {
    match e
    case CommitPublish(r, a) =>
      if r in w.pcs && w.pcs[r].Cleared? && w.pcs[r].job.Publishing? && a !in w.first
         && PublishCommit(w.db, w.pcs[r].job.c, a, w.pcs[r].row).Commit? then
        var row := w.pcs[r].row;
        Some((a, ArtifactRow(w.pcs[r].job.c, row.title, row.format, row.language, row.content, 1, row.byteSize)))
      else None
    case CommitUpdate(r) =>
      if r in w.pcs && w.pcs[r].Cleared? && w.pcs[r].job.Updating?
         && UpdateCommit(w.db, cfg, w.pcs[r].job.a, w.pcs[r].job.base, w.pcs[r].row).Commit? then
        var job := w.pcs[r].job;
        Some((job.a, Appended(w.db, job.a, job.base, w.pcs[r].row).artifacts[job.a]))
      else None
    case CommitReassign(r) =>
      if r in w.pcs && w.pcs[r].Cleared? && w.pcs[r].job.Reassigning?
         && ReassignCommit(w.db, w.pcs[r].job.a, w.pcs[r].job.target).Commit? then
        var job := w.pcs[r].job;
        Some((job.a, w.db.artifacts[job.a].(connectionId := job.target)))
      else None
    case _ => None
  }

  lemma WhatLands(w: Arena, cfg: Config, e: Event)
    ensures var v, x := Next(w, cfg, e), Landing(w, cfg, e);
            && (x.Some? ==> v.db.artifacts == w.db.artifacts[x.value.0 := x.value.1])
            && (x.None? ==> forall a <- v.db.artifacts :: a in w.db.artifacts && v.db.artifacts[a] == w.db.artifacts[a])
  {
  }

  /** The event writes a live row for which its connection has no room beside its other live rows. */
  ghost predicate OverLive(w: Arena, cfg: Config, e: Event) {
    var x := Landing(w, cfg, e);
    && x.Some?
    && Total(Quotas.CurrentRows(w.db.artifacts - {x.value.0}, x.value.1.connectionId)) + x.value.1.byteSize
       > cfg.maxTotalBytes
  }

  lemma LandingCounts(artifacts: Artifacts, a: ArtifactId, row: ArtifactRow, c: ConnId)
    ensures Total(Quotas.CurrentRows(artifacts[a := row], c)) ==
            Total(Quotas.CurrentRows(artifacts - {a}, c)) + if row.connectionId == c then row.byteSize else 0
  {
    var rest := Quotas.CurrentRows(artifacts - {a}, c);
    if row.connectionId == c {
      assert Quotas.CurrentRows(artifacts[a := row], c) == rest[a := row.byteSize];
      TotalInsert(rest, a, row.byteSize);
    } else {
      assert Quotas.CurrentRows(artifacts[a := row], c) == rest;
    }
  }

  lemma NextLiveExactly(w: Arena, cfg: Config, e: Event)
    requires LiveOk(w.db.artifacts, cfg.maxTotalBytes)
    ensures LiveOk(Next(w, cfg, e).db.artifacts, cfg.maxTotalBytes) <==> !OverLive(w, cfg, e)
  {
    var v, x := Next(w, cfg, e), Landing(w, cfg, e);
    WhatLands(w, cfg, e);
    forall c ensures Total(Quotas.CurrentRows(v.db.artifacts, c)) <= cfg.maxTotalBytes
                     || (x.Some? && x.value.1.connectionId == c && OverLive(w, cfg, e)) {
      if x.Some? {
        LandingCounts(w.db.artifacts, x.value.0, x.value.1, c);
        Quotas.CurrentShrinks(w.db.artifacts, w.db.artifacts - {x.value.0}, c);
      } else {
        Quotas.CurrentShrinks(w.db.artifacts, v.db.artifacts, c);
      }
    }
    if OverLive(w, cfg, e) {
      LandingCounts(w.db.artifacts, x.value.0, x.value.1, x.value.1.connectionId);
    }
  }

  ghost predicate AlwaysLive(w: Arena, cfg: Config, events: seq<Event>)
    decreases |events|
  {
    && LiveOk(w.db.artifacts, cfg.maxTotalBytes)
    && (events != [] ==> AlwaysLive(Next(w, cfg, events[0]), cfg, events[1..]))
  }

  ghost predicate NeverOverLive(w: Arena, cfg: Config, events: seq<Event>)
    decreases |events|
  {
    events != [] ==> !OverLive(w, cfg, events[0]) && NeverOverLive(Next(w, cfg, events[0]), cfg, events[1..])
  }

  /** Over every interleaving, reassignments included: the live bytes of every connection stay within the cap in
      every state if and only if every live row that is written finds room beside the others when it is. */
  lemma {:induction false} LiveBytesHoldExactly(w: Arena, cfg: Config, events: seq<Event>)
    requires LiveOk(w.db.artifacts, cfg.maxTotalBytes)
    ensures AlwaysLive(w, cfg, events) <==> NeverOverLive(w, cfg, events)
    decreases |events|
  {
    if events != [] {
      var v := Next(w, cfg, events[0]);
      NextLiveExactly(w, cfg, events[0]);
      if OverLive(w, cfg, events[0]) {
        assert !AlwaysLive(v, cfg, events[1..]);
      } else {
        LiveBytesHoldExactly(v, cfg, events[1..]);
      }
    }
  }

  /** Without reassignment, they do whenever every prune and delete is up to date when its DELETE runs. */
  lemma {:induction false} TimelyRunsKeepLiveBytes(w: Arena, cfg: Config, events: seq<Event>)
    requires StoredInv(w, cfg) && VersionRaces.HistoryInv(w) && cfg.maxVersions > 0
    requires VersionRaces.TimelyRun(w, cfg, events) && forall e <- events :: !e.BeginReassign?
    ensures AlwaysLive(w, cfg, events)
    decreases |events|
  {
    CurrentRowsCover(w, cfg);
    if events != [] {
      var v := Next(w, cfg, events[0]);
      NextKeepsUpdates(w, cfg, events[0]);
      NextKeepsStored(w, cfg, events[0]);
      VersionRaces.TimelyKeepsHistory(w, cfg, events[0]);
      TimelyRunsKeepLiveBytes(v, cfg, events[1..]);
    }
  }

  lemma CurrentRowsCover(w: Arena, cfg: Config)
    requires StoredInv(w, cfg) && VersionRaces.HistoryInv(w)
    ensures LiveOk(w.db.artifacts, cfg.maxTotalBytes)
  {
    forall c ensures Total(Quotas.CurrentRows(w.db.artifacts, c)) <= cfg.maxTotalBytes {
      forall a | a in Owned(w.db.artifacts, c) ensures ArtifactHistory.CurrentStored(w.db.artifacts, w.db.versions, a) {
        assert VersionRaces.Sound(w.db.artifacts, w.db.versions, a);
      }
      Quotas.LiveWithinStored(w.db.artifacts, w.db.versions, c);
    }
  }
}
