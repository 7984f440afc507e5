/** Everything the content tables promise, as one invariant of the store. */
module Health {
  import opened Schema
  import opened Content
  import opened ContentIntegrity
  import opened ArtifactHistory
  import Quotas
  import CommentQuotas

  /** Foreign keys and threads, faithful history, quotas, comment quotas. */
  ghost predicate Healthy(db: Db, cfg: Config) {
    && ContentOk(db) && Faithful(db, cfg.maxVersions)
    && Quotas.WithinQuota(db, cfg) && CommentQuotas.CommentsOk(db.comments, cfg)
  }

  /** A database without content is healthy, whoever is registered in it. */
  lemma EmptyShelvesAreHealthy(db: Db, cfg: Config)
    requires db.artifacts == map[] && db.versions == map[] && db.comments == map[] && db.shares == map[]
    ensures Healthy(db, cfg)
  {
    forall c ensures Quotas.CurrentRows(db.artifacts, c) == map[] && Owned(db.artifacts, c) == {} {}
    forall a ensures CommentSizes(db.comments, a) == map[] {}
  }

  /** `after` is healthy wherever `before` is. */
  ghost predicate Keeps(before: Db, after: Db, cfg: Config) {
    cfg.maxVersions > 0 && Healthy(before, cfg) ==> Healthy(after, cfg)
  }

  /** No atomic request makes a healthy database unhealthy. */
  lemma RequestKeeps(db: Db, cfg: Config, q: Request)
    ensures Keeps(db, After(db, Perform(db, cfg, q)), cfg)
  {
    if cfg.maxVersions > 0 && Healthy(db, cfg) {
      PerformKeeps(db, cfg, q);
      PerformKeepsHistory(db, cfg, q);
      Quotas.PerformWithinQuota(db, cfg, q);
      CommentQuotas.PerformKeeps(db, cfg, q);
    }
  }
}
