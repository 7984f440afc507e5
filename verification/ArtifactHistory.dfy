/** The live artifact row is a faithful cache of its version history (tools.py, versions.py),
    over any sequence of atomic requests. */
module ArtifactHistory {
  import opened Basics
  import opened Schema
  import opened Content
  import opened ContentIntegrity
  import Retention
  import Utf8

  type Artifacts = map<ArtifactId, ArtifactRow>
  type Versions = map<VersionKey, VersionRow>

  function Snapshot(row: ArtifactRow): VersionRow {
    VersionRow(row.title, row.format, row.language, row.content, row.byteSize)
  }

  predicate CurrentStored(artifacts: Artifacts, versions: Versions, a: ArtifactId) {
    && a in artifacts
    && VersionKey(a, artifacts[a].version) in versions
    && versions[VersionKey(a, artifacts[a].version)] == Snapshot(artifacts[a])
  }

  predicate Honest(row: VersionRow) {
    row.byteSize == ByteSize(row.content, row.title, row.language)
  }

  /** Every stored size is the size of what is stored. */
  ghost predicate SizesHonest(versions: Versions) {
    forall k <- versions :: Honest(versions[k])
  }

  /** One artifact's history: the current row cached faithfully, and no more than `n` rows. */
  predicate HistoryOf(artifacts: Artifacts, versions: Versions, n: nat, a: ArtifactId) {
    CurrentStored(artifacts, versions, a) && |VersionsOf(versions, a)| <= n
  }

  ghost predicate HistoryOk(artifacts: Artifacts, versions: Versions, n: nat) {
    SizesHonest(versions) && forall a <- artifacts :: HistoryOf(artifacts, versions, n, a)
  }

  /** An artifact whose row and version rows are untouched keeps its history. */
  lemma Untouched(artifacts: Artifacts, versions: Versions, artifacts': Artifacts, versions': Versions, n: nat,
                  a: ArtifactId)
    requires HistoryOf(artifacts, versions, n, a)
    requires a in artifacts' && Snapshot(artifacts'[a]) == Snapshot(artifacts[a])
        && artifacts'[a].version == artifacts[a].version
    requires forall v: int :: var k := VersionKey(a, v);
      (k in versions' <==> k in versions) && (k in versions ==> versions'[k] == versions[k])
    ensures HistoryOf(artifacts', versions', n, a)
  {
    assert VersionsOf(versions', a) == VersionsOf(versions, a) by {
      forall v ensures v in VersionsOf(versions', a) <==> v in VersionsOf(versions, a) {
        assert VersionKey(a, v) in versions' <==> VersionKey(a, v) in versions;
      }
    }
  }

  // ---- update and retention ----

  /** What one successful update leaves of an artifact's history: the cap-many largest of the old
      versions and the new one; the histories of other artifacts are untouched. */
  lemma UpdateRetains(db: Db, cfg: Config, a: ArtifactId, base: int, row: VersionRow)
    requires UpdateCommit(db, cfg, a, base, row).Commit?
    ensures var d := UpdateCommit(db, cfg, a, base, row).db;
            var all := VersionsOf(db.versions, a) + {base + 1};
            && VersionsOf(d.versions, a) == Retention.Kept(all, cfg.maxVersions)
            && |VersionsOf(d.versions, a)| == (if |all| < cfg.maxVersions then |all| else cfg.maxVersions)
            && (forall v, u | v in VersionsOf(d.versions, a) && u in all - VersionsOf(d.versions, a) :: u < v)
    ensures var d := UpdateCommit(db, cfg, a, base, row).db;
            forall k: VersionKey | k.artifact != a ::
              (k in d.versions <==> k in db.versions) && (k in d.versions ==> d.versions[k] == db.versions[k])
  {
    var written := Appended(db, a, base, row);
    var d := UpdateCommit(db, cfg, a, base, row).db;
    var all := VersionsOf(db.versions, a) + {base + 1};
    AppendedVersions(db, a, base, row);
    RetainedVersions(written.versions, cfg.maxVersions, a);
    Retention.KeptSize(all, cfg.maxVersions);
    Retention.KeptAreLargest(all, cfg.maxVersions);
    assert d.versions == Retained(written.versions, cfg.maxVersions, a);
  }

  lemma AppendedVersions(db: Db, a: ArtifactId, base: int, row: VersionRow)
    requires a in db.artifacts
    ensures VersionsOf(Appended(db, a, base, row).versions, a) == VersionsOf(db.versions, a) + {base + 1}
  {
    var w := Appended(db, a, base, row).versions;
    forall v | v in VersionsOf(db.versions, a) + {base + 1} ensures v in VersionsOf(w, a) {
      assert VersionKey(a, v) in w;
    }
  }

  lemma RetainedVersions(versions: Versions, n: nat, a: ArtifactId)
    ensures VersionsOf(Retained(versions, n, a), a) == Retention.Kept(VersionsOf(versions, a), n)
    ensures forall b | b != a :: VersionsOf(Retained(versions, n, a), b) == VersionsOf(versions, b)
  {
    var r := Retained(versions, n, a);
    if |VersionsOf(versions, a)| <= n {
      Retention.KeptAll(VersionsOf(versions, a), n);
    } else {
      forall v | v in Retention.Kept(VersionsOf(versions, a), n) ensures v in VersionsOf(r, a) {
        assert VersionKey(a, v) in r;
      }
      forall b | b != a ensures VersionsOf(r, b) == VersionsOf(versions, b) {
        forall v | v in VersionsOf(versions, b) ensures v in VersionsOf(r, b) {
          assert VersionKey(b, v) in r;
        }
      }
    }
  }

  /** After an update the new version's row is stored, and equals the live row, exactly when the
      version cap is positive. */
  lemma UpdateStoresCurrent(db: Db, cfg: Config, a: ArtifactId, base: int, row: VersionRow)
    requires UpdateCommit(db, cfg, a, base, row).Commit? && a in db.artifacts
    requires forall v <- VersionsOf(db.versions, a) :: v <= base
    ensures var d := UpdateCommit(db, cfg, a, base, row).db;
            CurrentStored(d.artifacts, d.versions, a) <==> cfg.maxVersions > 0
  {
    var d := UpdateCommit(db, cfg, a, base, row).db;
    UpdateRetains(db, cfg, a, base, row);
    Retention.NewestKept(VersionsOf(db.versions, a) + {base + 1}, base + 1, cfg.maxVersions);
    assert base + 1 in VersionsOf(d.versions, a) <==> VersionKey(a, base + 1) in d.versions;
  }

  lemma UpdateKeepsHistory(db: Db, cfg: Config, a: ArtifactId, base: int, row: VersionRow)
    requires VersionsBounded(db.versions, db.artifacts) && HistoryOk(db.artifacts, db.versions, cfg.maxVersions)
    requires cfg.maxVersions > 0 && Honest(row)
    requires a in db.artifacts && db.artifacts[a].version == base
    requires UpdateCommit(db, cfg, a, base, row).Commit?
    ensures var d := UpdateCommit(db, cfg, a, base, row).db; HistoryOk(d.artifacts, d.versions, cfg.maxVersions)
  {
    var d := UpdateCommit(db, cfg, a, base, row).db;
    UpdateRetains(db, cfg, a, base, row);
    assert forall v <- VersionsOf(db.versions, a) :: v <= base;
    UpdateStoresCurrent(db, cfg, a, base, row);
    forall b | b in d.artifacts ensures HistoryOf(d.artifacts, d.versions, cfg.maxVersions, b) {
      if b != a {
        Untouched(db.artifacts, db.versions, d.artifacts, d.versions, cfg.maxVersions, b);
      }
    }
    forall k | k in d.versions ensures Honest(d.versions[k]) {
      assert k in Appended(db, a, base, row).versions;
    }
  }

  // ---- the other requests ----

  lemma PublishKeepsHistory(db: Db, cfg: Config, c: ConnId, a: ArtifactId, row: VersionRow)
    requires VersionsRefer(db.versions, db.artifacts) && HistoryOk(db.artifacts, db.versions, cfg.maxVersions)
    requires cfg.maxVersions > 0 && Honest(row) && PublishCommit(db, c, a, row).Commit?
    ensures var d := PublishCommit(db, c, a, row).db; HistoryOk(d.artifacts, d.versions, cfg.maxVersions)
  {
    var d := PublishCommit(db, c, a, row).db;
    assert VersionsOf(d.versions, a) == {1} by { assert VersionKey(a, 1) in d.versions; }
    forall b | b in d.artifacts ensures HistoryOf(d.artifacts, d.versions, cfg.maxVersions, b) {
      if b != a { Untouched(db.artifacts, db.versions, d.artifacts, d.versions, cfg.maxVersions, b); }
    }
  }

  /** Deleting any rows but current ones keeps every history. */
  lemma DroppingKeepsHistory(artifacts: Artifacts, versions: Versions, versions': Versions, n: nat)
    requires HistoryOk(artifacts, versions, n)
    requires forall k <- versions' :: k in versions && versions'[k] == versions[k]
    requires forall a <- artifacts :: VersionKey(a, artifacts[a].version) in versions'
    ensures HistoryOk(artifacts, versions', n)
  {
    forall a | a in artifacts ensures HistoryOf(artifacts, versions', n, a) {
      assert HistoryOf(artifacts, versions, n, a);
      Retention.SubsetSize(VersionsOf(versions', a), VersionsOf(versions, a));
    }
  }

  lemma CurrentAll(artifacts: Artifacts, versions: Versions, n: nat)
    requires HistoryOk(artifacts, versions, n)
    ensures forall a <- artifacts :: VersionKey(a, artifacts[a].version) in versions
  {
    forall a | a in artifacts ensures VersionKey(a, artifacts[a].version) in versions {
      assert HistoryOf(artifacts, versions, n, a);
    }
  }

  lemma WithoutArtifactKeepsHistory(db: Db, n: nat, a: ArtifactId)
    requires HistoryOk(db.artifacts, db.versions, n)
    ensures HistoryOk(WithoutArtifact(db, a).artifacts, WithoutArtifact(db, a).versions, n)
  {
    var d := WithoutArtifact(db, a);
    forall b | b in d.artifacts ensures HistoryOf(d.artifacts, d.versions, n, b) {
      Untouched(db.artifacts, db.versions, d.artifacts, d.versions, n, b);
    }
  }

  lemma ReassignKeepsHistory(db: Db, n: nat, a: ArtifactId, target: ConnId)
    requires HistoryOk(db.artifacts, db.versions, n)
    ensures var d := After(db, ReassignCommit(db, a, target)); HistoryOk(d.artifacts, d.versions, n)
  {
    var d := After(db, ReassignCommit(db, a, target));
    forall b | b in d.artifacts ensures HistoryOf(d.artifacts, d.versions, n, b) {
      Untouched(db.artifacts, db.versions, d.artifacts, d.versions, n, b);
    }
  }

  // ---- any run of atomic requests ----

  ghost predicate Faithful(db: Db, n: nat) {
    HistoryOk(db.artifacts, db.versions, n)
  }

  lemma PublishRequest(db: Db, cfg: Config, c: ConnId, a: ArtifactId, content: string, format: string,
                       title: Option<string>, language: Option<string>)
    requires ContentOk(db) && Faithful(db, cfg.maxVersions) && cfg.maxVersions > 0
    ensures Faithful(After(db, Publish(db, cfg, c, a, content, format, title, language)), cfg.maxVersions)
  {
    if Publish(db, cfg, c, a, content, format, title, language).Commit? {
      PublishKeepsHistory(db, cfg, c, a,
        VersionRow(title, ParseFormat(format).value, language, content, ByteSize(content, title, language)));
    }
  }

  lemma UpdateRequest(db: Db, cfg: Config, c: ConnId, a: ArtifactId, content: string, base: int,
                      format: Option<string>, title: Option<string>, language: Option<string>)
    requires ContentOk(db) && Faithful(db, cfg.maxVersions) && cfg.maxVersions > 0
    ensures Faithful(After(db, Update(db, cfg, c, a, content, base, format, title, language)), cfg.maxVersions)
  {
    if Update(db, cfg, c, a, content, base, format, title, language).Commit? {
      var parsed := if format.Some? then ParseFormat(format.value) else Some(db.artifacts[a].format);
      UpdateKeepsHistory(db, cfg, a, base, NewVersion(db.artifacts[a], content, parsed.value, title, language));
    }
  }

  lemma DeleteVersionRequest(db: Db, n: nat, u: UserId, a: ArtifactId, v: int)
    requires Faithful(db, n)
    ensures Faithful(After(db, DeleteVersion(db, u, a, v)), n)
  {
    if DeleteVersion(db, u, a, v).Commit? {
      CurrentAll(db.artifacts, db.versions, n);
      DroppingKeepsHistory(db.artifacts, db.versions, db.versions - {VersionKey(a, v)}, n);
    }
  }

  lemma PruneRequest(db: Db, n: nat, u: UserId, a: ArtifactId)
    requires Faithful(db, n)
    ensures Faithful(After(db, Prune(db, u, a)), n)
  {
    if Prune(db, u, a).Commit? {
      CurrentAll(db.artifacts, db.versions, n);
      DroppingKeepsHistory(db.artifacts, db.versions, AllButVersion(db, a, db.artifacts[a].version), n);
    }
  }

  lemma DeleteArtifactRequest(db: Db, n: nat, u: UserId, a: ArtifactId)
    requires Faithful(db, n)
    ensures Faithful(After(db, DeleteArtifact(db, u, a)), n)
    ensures Faithful(After(db, AdminDeleteArtifact(db, a)), n)
  {
    WithoutArtifactKeepsHistory(db, n, a);
  }

  lemma ReassignRequest(db: Db, cfg: Config, n: nat, u: UserId, a: ArtifactId, target: ConnId)
    requires Faithful(db, n)
    ensures Faithful(After(db, Reassign(db, cfg, u, a, target)), n)
  {
    ReassignKeepsHistory(db, n, a, target);
  }

  lemma PerformKeepsHistory(db: Db, cfg: Config, q: Request)
    requires ContentOk(db) && Faithful(db, cfg.maxVersions) && cfg.maxVersions > 0
    ensures Faithful(After(db, Perform(db, cfg, q)), cfg.maxVersions)
  {
    match q
    case DoPublish(c, a, content, format, title, language) =>
      PublishRequest(db, cfg, c, a, content, format, title, language);
    case DoUpdate(c, a, content, base, format, title, language) =>
      UpdateRequest(db, cfg, c, a, content, base, format, title, language);
    case DoReassign(u, a, target) => ReassignRequest(db, cfg, cfg.maxVersions, u, a, target);
    case DoDeleteVersion(u, a, v) => DeleteVersionRequest(db, cfg.maxVersions, u, a, v);
    case DoPrune(u, a) => PruneRequest(db, cfg.maxVersions, u, a);
    case DoDeleteArtifact(u, a) => DeleteArtifactRequest(db, cfg.maxVersions, u, a);
    case DoAdminDelete(a) => DeleteArtifactRequest(db, cfg.maxVersions, 0, a);
    case _ => SparesArtifacts(db, cfg, q);
  }

  /** Comments and shares do not touch artifacts or versions. */
  lemma SparesArtifacts(db: Db, cfg: Config, q: Request)
    requires q.DoComment? || q.DoReply? || q.DoHumanReply? || q.DoResolve? || q.DoToggle? || q.DoDeleteThread?
          || q.DoShare? || q.DoDashboardShare? || q.DoUnshare?
    ensures After(db, Perform(db, cfg, q)).artifacts == db.artifacts
        && After(db, Perform(db, cfg, q)).versions == db.versions
  {
  }

  ghost function PerformAll(db: Db, cfg: Config, requests: seq<Request>): Db
    decreases |requests|
  {
    if requests == [] then db else PerformAll(After(db, Perform(db, cfg, requests[0])), cfg, requests[1..])
  }

  /** However many atomic requests run: every artifact's current version is stored and equals the
      live row, stored versions lie in 1..current, and there are never more than the cap. */
  lemma {:induction false} HistoryIsFaithful(db: Db, cfg: Config, requests: seq<Request>)
    requires ContentOk(db) && Faithful(db, cfg.maxVersions) && cfg.maxVersions > 0
    ensures var d := PerformAll(db, cfg, requests);
            && ContentOk(d) && Faithful(d, cfg.maxVersions)
    decreases |requests|
  {
    if requests != [] {
      PerformKeeps(db, cfg, requests[0]);
      PerformKeepsHistory(db, cfg, requests[0]);
      HistoryIsFaithful(After(db, Perform(db, cfg, requests[0])), cfg, requests[1..]);
    }
  }

  // ---- what is written is what is read ----

  /** A published artifact reads back as it was sent, at version 1, under the connection that sent it,
      charged for the bytes of content, title and language; every other artifact reads as before. */
  lemma PublishReadsBack(db: Db, cfg: Config, c: ConnId, a: ArtifactId, content: string, format: string,
                         title: Option<string>, language: Option<string>, b: ArtifactId)
    requires Publish(db, cfg, c, a, content, format, title, language).Commit?
    ensures var d := Publish(db, cfg, c, a, content, format, title, language).db;
            && OwnedBy(d, c, a) && a !in db.artifacts && CurrentStored(d.artifacts, d.versions, a)
            && d.artifacts[a].version == 1 && Snapshot(d.artifacts[a]) == VersionRow(title, ParseFormat(format).value,
                 language, content, Utf8.ByteLength(content) + Utf8.ByteLength(OrEmpty(title))
                                    + Utf8.ByteLength(OrEmpty(language)))
            && (b != a ==>
                (b in d.artifacts <==> b in db.artifacts) && VersionsOf(d.versions, b) == VersionsOf(db.versions, b)
                           && (b in db.artifacts ==> d.artifacts[b] == db.artifacts[b]))
  {
    var written := Publish(db, cfg, c, a, content, format, title, language).db.versions;
    assert forall k: VersionKey | k.artifact == b && b != a :: k in written <==> k in db.versions;
  }

  /** An update replaces the content, keeps every field the caller left out, moves the version by one, is
      accepted only from the version it names, and leaves every other artifact as it was. */
  lemma UpdateReadsBack(db: Db, cfg: Config, c: ConnId, a: ArtifactId, content: string, base: int,
                        format: Option<string>, title: Option<string>, language: Option<string>, b: ArtifactId)
    requires Update(db, cfg, c, a, content, base, format, title, language).Commit?
    ensures var d := Update(db, cfg, c, a, content, base, format, title, language).db;
            && a in db.artifacts && a in d.artifacts && db.artifacts[a].version == base
            && d.artifacts[a].version == base + 1
            && d.artifacts[a].content == content && d.artifacts[a].connectionId == c == db.artifacts[a].connectionId
            && d.artifacts[a].title == (if title.Some? then title else db.artifacts[a].title)
            && d.artifacts[a].language == (if language.Some? then language else db.artifacts[a].language)
            && Some(d.artifacts[a].format)
                == (if format.Some? then ParseFormat(format.value) else Some(db.artifacts[a].format))
            && Honest(Snapshot(d.artifacts[a]))
            && (b != a ==>
                (b in d.artifacts <==> b in db.artifacts) && (b in db.artifacts ==> d.artifacts[b] == db.artifacts[b]))
  {
  }
}
