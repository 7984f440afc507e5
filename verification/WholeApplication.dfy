/** Everything at once: the interleaved authorization server with its content requests, from an empty
    database, under one configuration. */
module WholeApplication {
  import opened Schema
  import opened Content
  import opened Totals
  import opened OAuthRuns
  import opened ArtifactHistory
  import Quotas
  import opened Health
  import SchemaIntegrity

  /** The configuration is read once, at start-up. */
  ghost predicate Configured(events: seq<Event>, cfg: Config) {
    forall e <- events :: e.UseContent? ==> e.cfg == cfg
  }

  lemma NextKeepsHealthy(w: World, e: Event, cfg: Config)
    requires Healthy(w.db, cfg) && cfg.maxVersions > 0 && (e.UseContent? ==> e.cfg == cfg)
    ensures Healthy(Next(w, e).db, cfg)
  {
    SchemaIntegrity.NextKeepsContent(w, e);
    if e.UseContent? {
      RequestKeeps(w.db, cfg, e.q);
    } else {
      SchemaIntegrity.StepSparesContent(w, e);
    }
  }

  lemma {:induction false} RunKeepsHealthy(w: World, events: seq<Event>, cfg: Config)
    requires Healthy(w.db, cfg) && cfg.maxVersions > 0 && Configured(events, cfg)
    ensures Healthy(Run(w, events).db, cfg)
    decreases |events|
  {
    if events != [] {
      assert events[0] in events;
      NextKeepsHealthy(w, events[0], cfg);
      assert forall e | e in events[1..] :: e in events;
      RunKeepsHealthy(Next(w, events[0]), events[1..], cfg);
    }
  }

  /** Any interleaving of sign-ups, consents, exchanges, refreshes, revocations, sweeps, connection
      deletions and content requests, each content request in one step, from an empty database: every
      foreign key holds, every artifact equals its current stored version, every connection is within its
      artifact count and its live bytes, and every artifact within its comment count and characters. */
  lemma PromisesHoldTogether(events: seq<Event>, cfg: Config, c: ConnId, a: ArtifactId)
    requires cfg.maxVersions > 0 && Configured(events, cfg)
    ensures var db := Run(START, events).db;
            && ForeignKeys(db)
            && (a in db.artifacts ==>
                  CurrentStored(db.artifacts, db.versions, a) && |VersionsOf(db.versions, a)| <= cfg.maxVersions)
            && |Owned(db.artifacts, c)| <= cfg.maxArtifacts
            && Total(Quotas.CurrentRows(db.artifacts, c)) <= cfg.maxTotalBytes
            && StoredBytes(db, c) <= cfg.maxArtifacts * cfg.maxVersions * cfg.maxArtifactBytes
            && |CommentSizes(db.comments, a)| <= cfg.maxComments
            && Total(CommentSizes(db.comments, a)) <= cfg.maxCommentBytes
  {
    EmptyShelvesAreHealthy(START.db, cfg);
    RunKeepsHealthy(START, events, cfg);
    var db := Run(START, events).db;
    Quotas.StoredBytesBounded(db, cfg, c);
    SchemaIntegrity.EveryForeignKeyHolds(events);
  }
}
