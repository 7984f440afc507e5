/** The per-connection quotas of quotas.py over any sequence of atomic requests. */
module Quotas {
  import opened Basics
  import opened Schema
  import opened Content
  import opened ContentIntegrity
  import opened ArtifactHistory
  import opened Totals
  import Retention

  function CurrentRows(artifacts: Artifacts, c: ConnId): map<ArtifactId, nat> {
    map a | a in artifacts && artifacts[a].connectionId == c :: artifacts[a].byteSize
  }

  /** Sizes of all stored versions of one artifact. */
  function HistoryRows(versions: Versions, a: ArtifactId): map<VersionKey, nat> {
    map k | k in versions && k.artifact == a :: versions[k].byteSize
  }

  // ---- how the sums move ----

  /** What is live is also stored, as long as the current rows are. */
  lemma LiveWithinStored(artifacts: Artifacts, versions: Versions, c: ConnId)
    requires forall a <- Owned(artifacts, c) :: CurrentStored(artifacts, versions, a)
    ensures Total(CurrentRows(artifacts, c)) <= Total(StoredRows(artifacts, versions, c))
  {
    var f := map a | a in CurrentRows(artifacts, c) :: VersionKey(a, artifacts[a].version);
    forall a | a in CurrentRows(artifacts, c)
      ensures f[a] in StoredRows(artifacts, versions, c)
           && CurrentRows(artifacts, c)[a] <= StoredRows(artifacts, versions, c)[f[a]]
    {
      assert a in Owned(artifacts, c);
    }
    TotalEmbeds(CurrentRows(artifacts, c), StoredRows(artifacts, versions, c), f);
  }

  lemma CurrentWithinStored(artifacts: Artifacts, versions: Versions, n: nat, c: ConnId)
    requires HistoryOk(artifacts, versions, n)
    ensures Total(CurrentRows(artifacts, c)) <= Total(StoredRows(artifacts, versions, c))
  {
    forall a | a in Owned(artifacts, c) ensures CurrentStored(artifacts, versions, a) {
      assert HistoryOf(artifacts, versions, n, a);
    }
    LiveWithinStored(artifacts, versions, c);
  }

  /** A new row for an artifact of `c`: the connection pays for it, nobody else does. */
  lemma NewRow(artifacts: Artifacts, versions: Versions, artifacts': Artifacts, k: VersionKey, row: VersionRow,
               c: ConnId)
    requires k !in versions && k.artifact in artifacts'
    requires forall j <- versions :: j.artifact in artifacts && j.artifact in artifacts'
                && artifacts'[j.artifact].connectionId == artifacts[j.artifact].connectionId
    ensures Total(StoredRows(artifacts', versions[k := row], c)) ==
            Total(StoredRows(artifacts, versions, c))
            + if artifacts'[k.artifact].connectionId == c then row.byteSize else 0
  {
    if artifacts'[k.artifact].connectionId == c {
      assert StoredRows(artifacts', versions[k := row], c) == StoredRows(artifacts, versions, c)[k := row.byteSize];
      TotalInsert(StoredRows(artifacts, versions, c), k, row.byteSize);
    } else {
      assert StoredRows(artifacts', versions[k := row], c) == StoredRows(artifacts, versions, c);
    }
  }

  /** Rows that go away, wherever they were, only lower the sums. */
  lemma FewerRows(artifacts: Artifacts, versions: Versions, artifacts': Artifacts, versions': Versions, c: ConnId)
    requires forall k <- versions' :: k in versions && versions'[k] == versions[k]
    requires forall a <- artifacts' :: a in artifacts && artifacts'[a].connectionId == artifacts[a].connectionId
    ensures Total(StoredRows(artifacts', versions', c)) <= Total(StoredRows(artifacts, versions, c))
  {
    TotalMonotone(StoredRows(artifacts', versions', c), StoredRows(artifacts, versions, c));
  }

  /** Reassignment moves the whole history: the target gains exactly what the source loses. */
  lemma ReassignMovesHistory(artifacts: Artifacts, versions: Versions, a: ArtifactId, target: ConnId)
    requires a in artifacts && artifacts[a].connectionId != target
    ensures var artifacts' := artifacts[a := artifacts[a].(connectionId := target)];
            var source := artifacts[a].connectionId;
            var h := Total(HistoryRows(versions, a));
            && Total(StoredRows(artifacts', versions, target)) == Total(StoredRows(artifacts, versions, target)) + h
            && Total(StoredRows(artifacts, versions, source)) == Total(StoredRows(artifacts', versions, source)) + h
            && forall c | c != source && c != target ::
                 StoredRows(artifacts', versions, c) == StoredRows(artifacts, versions, c)
  {
    var artifacts' := artifacts[a := artifacts[a].(connectionId := target)];
    var source := artifacts[a].connectionId;
    TotalSplit(StoredRows(artifacts', versions, target), StoredRows(artifacts, versions, target),
               HistoryRows(versions, a));
    TotalSplit(StoredRows(artifacts, versions, source), StoredRows(artifacts', versions, source),
               HistoryRows(versions, a));
  }

  lemma HistoryCoversCurrent(artifacts: Artifacts, versions: Versions, n: nat, a: ArtifactId)
    requires HistoryOk(artifacts, versions, n) && a in artifacts
    ensures artifacts[a].byteSize <= Total(HistoryRows(versions, a))
    ensures VersionsOf(versions, a) == {artifacts[a].version} ==>
        artifacts[a].byteSize == Total(HistoryRows(versions, a))
  {
    assert HistoryOf(artifacts, versions, n, a);
    var k := VersionKey(a, artifacts[a].version);
    TotalRemove(HistoryRows(versions, a), k);
    if VersionsOf(versions, a) == {artifacts[a].version} {
      forall j | j in HistoryRows(versions, a) ensures j == k {
        assert j.version in VersionsOf(versions, a);
      }
      assert HistoryRows(versions, a) - {k} == map[];
    }
  }

  // ---- the invariants ----

  ghost predicate CountOk(artifacts: Artifacts, cfg: Config) {
    forall c :: |Owned(artifacts, c)| <= cfg.maxArtifacts
  }

  ghost predicate CurrentOk(artifacts: Artifacts, cfg: Config) {
    forall c :: Total(CurrentRows(artifacts, c)) <= cfg.maxTotalBytes
  }

  ghost predicate RowsSmall(versions: Versions, cfg: Config) {
    forall k <- versions :: versions[k].byteSize <= cfg.maxArtifactBytes
  }

  ghost predicate StoredOk(artifacts: Artifacts, versions: Versions, cfg: Config) {
    forall c :: Total(StoredRows(artifacts, versions, c)) <= cfg.maxTotalBytes
  }

  ghost predicate WithinQuota(db: Db, cfg: Config) {
    CountOk(db.artifacts, cfg) && CurrentOk(db.artifacts, cfg) && RowsSmall(db.versions, cfg)
  }

  lemma OwnedInsert(artifacts: Artifacts, a: ArtifactId, row: ArtifactRow, c: ConnId)
    ensures |Owned(artifacts[a := row], c)| <= |Owned(artifacts, c)| + if row.connectionId == c then 1 else 0
  {
    if row.connectionId == c {
      assert Owned(artifacts[a := row], c) == Owned(artifacts, c) + {a};
    } else {
      Retention.SubsetSizeOf(Owned(artifacts[a := row], c), Owned(artifacts, c));
    }
  }

  lemma OwnedShrinks(artifacts: Artifacts, artifacts': Artifacts, c: ConnId)
    requires forall a <- artifacts' :: a in artifacts && artifacts'[a].connectionId == artifacts[a].connectionId
    ensures |Owned(artifacts', c)| <= |Owned(artifacts, c)|
  {
    Retention.SubsetSizeOf(Owned(artifacts', c), Owned(artifacts, c));
  }

  /** One artifact row written: other connections' live bytes do not grow, its own connection's grow by
      its size at most. */
  lemma CurrentInsert(artifacts: Artifacts, a: ArtifactId, row: ArtifactRow, c: ConnId)
    ensures Total(CurrentRows(artifacts[a := row], c)) <=
            Total(CurrentRows(artifacts, c)) + if row.connectionId == c then row.byteSize else 0
  {
    var rest := CurrentRows(artifacts, c) - {a};
    TotalMonotone(rest, CurrentRows(artifacts, c));
    if row.connectionId == c {
      assert CurrentRows(artifacts[a := row], c) == rest[a := row.byteSize];
      TotalInsert(rest, a, row.byteSize);
    } else {
      assert CurrentRows(artifacts[a := row], c) == rest;
    }
  }

  lemma CurrentShrinks(artifacts: Artifacts, artifacts': Artifacts, c: ConnId)
    requires forall a <- artifacts' :: a in artifacts && artifacts'[a].connectionId == artifacts[a].connectionId
                && artifacts'[a].byteSize == artifacts[a].byteSize
    ensures Total(CurrentRows(artifacts', c)) <= Total(CurrentRows(artifacts, c))
  {
    TotalMonotone(CurrentRows(artifacts', c), CurrentRows(artifacts, c));
  }

  /** Writing one artifact row of `c` whose size fits beside everything `c` has stored. */
  lemma WriteWithinQuota(artifacts: Artifacts, versions: Versions, cfg: Config, a: ArtifactId, row: ArtifactRow)
    requires HistoryOk(artifacts, versions, cfg.maxVersions)
    requires CountOk(artifacts, cfg) && CurrentOk(artifacts, cfg)
    requires Total(StoredRows(artifacts, versions, row.connectionId)) + row.byteSize <= cfg.maxTotalBytes
    requires (a in artifacts && artifacts[a].connectionId == row.connectionId)
          || |Owned(artifacts, row.connectionId)| < cfg.maxArtifacts
    ensures CountOk(artifacts[a := row], cfg) && CurrentOk(artifacts[a := row], cfg)
  {
    var written := artifacts[a := row];
    forall c ensures |Owned(written, c)| <= cfg.maxArtifacts {
      OwnedInsert(artifacts, a, row, c);
      if c == row.connectionId && a in artifacts && artifacts[a].connectionId == c {
        assert Owned(written, c) == Owned(artifacts, c);
      }
    }
    forall c ensures Total(CurrentRows(written, c)) <= cfg.maxTotalBytes {
      CurrentInsert(artifacts, a, row, c);
      CurrentWithinStored(artifacts, versions, cfg.maxVersions, c);
    }
  }

  lemma DropWithinQuota(db: Db, d: Db, cfg: Config)
    requires WithinQuota(db, cfg)
    requires forall a <- d.artifacts :: a in db.artifacts && d.artifacts[a].connectionId == db.artifacts[a].connectionId
                && d.artifacts[a].byteSize == db.artifacts[a].byteSize
    requires forall k <- d.versions :: k in db.versions && d.versions[k] == db.versions[k]
    ensures WithinQuota(d, cfg)
  {
    forall c ensures |Owned(d.artifacts, c)| <= cfg.maxArtifacts { OwnedShrinks(db.artifacts, d.artifacts, c); }
    forall c ensures Total(CurrentRows(d.artifacts, c)) <= cfg.maxTotalBytes {
      CurrentShrinks(db.artifacts, d.artifacts, c);
    }
  }

  // ---- requests ----

  lemma PublishWithinQuota(db: Db, cfg: Config, c: ConnId, a: ArtifactId, row: VersionRow)
    requires WithinQuota(db, cfg) && Faithful(db, cfg.maxVersions)
    requires NewArtifactQuota(db, cfg, c, row.byteSize).None?
    ensures WithinQuota(After(db, PublishCommit(db, c, a, row)), cfg)
  {
    if PublishCommit(db, c, a, row).Commit? {
      WriteWithinQuota(db.artifacts, db.versions, cfg, a,
        ArtifactRow(c, row.title, row.format, row.language, row.content, 1, row.byteSize));
    }
  }

  lemma UpdateWithinQuota(db: Db, cfg: Config, a: ArtifactId, base: int, row: VersionRow)
    requires WithinQuota(db, cfg) && Faithful(db, cfg.maxVersions)
    requires a in db.artifacts && UpdateQuota(db, cfg, db.artifacts[a].connectionId, row.byteSize).None?
    ensures WithinQuota(After(db, UpdateCommit(db, cfg, a, base, row)), cfg)
  {
    if UpdateCommit(db, cfg, a, base, row).Commit? {
      var d := UpdateCommit(db, cfg, a, base, row).db;
      WriteWithinQuota(db.artifacts, db.versions, cfg, a, d.artifacts[a]);
      assert d.artifacts == db.artifacts[a := d.artifacts[a]];
      assert forall k <- d.versions :: k in Appended(db, a, base, row).versions;
    }
  }

  lemma ReassignWithinQuota(db: Db, cfg: Config, a: ArtifactId, target: ConnId)
    requires WithinQuota(db, cfg) && Faithful(db, cfg.maxVersions)
    requires a in db.artifacts && NewArtifactQuota(db, cfg, target, db.artifacts[a].byteSize).None?
    ensures WithinQuota(After(db, ReassignCommit(db, a, target)), cfg)
  {
    if ReassignCommit(db, a, target).Commit? {
      WriteWithinQuota(db.artifacts, db.versions, cfg, a, db.artifacts[a].(connectionId := target));
    }
  }

  lemma PublishRequestWithin(db: Db, cfg: Config, c: ConnId, a: ArtifactId, content: string, format: string,
                             title: Option<string>, language: Option<string>)
    requires WithinQuota(db, cfg) && Faithful(db, cfg.maxVersions)
    ensures WithinQuota(After(db, Publish(db, cfg, c, a, content, format, title, language)), cfg)
  {
    if Publish(db, cfg, c, a, content, format, title, language).Commit? {
      PublishWithinQuota(db, cfg, c, a,
        VersionRow(title, ParseFormat(format).value, language, content, ByteSize(content, title, language)));
    }
  }

  lemma UpdateRequestWithin(db: Db, cfg: Config, c: ConnId, a: ArtifactId, content: string, base: int,
                            format: Option<string>, title: Option<string>, language: Option<string>)
    requires WithinQuota(db, cfg) && Faithful(db, cfg.maxVersions)
    ensures WithinQuota(After(db, Update(db, cfg, c, a, content, base, format, title, language)), cfg)
  {
    if Update(db, cfg, c, a, content, base, format, title, language).Commit? {
      var parsed := if format.Some? then ParseFormat(format.value) else Some(db.artifacts[a].format);
      UpdateWithinQuota(db, cfg, a, base, NewVersion(db.artifacts[a], content, parsed.value, title, language));
    }
  }

  lemma ReassignRequestWithin(db: Db, cfg: Config, u: UserId, a: ArtifactId, target: ConnId)
    requires WithinQuota(db, cfg) && Faithful(db, cfg.maxVersions)
    ensures WithinQuota(After(db, Reassign(db, cfg, u, a, target)), cfg)
  {
    if Reassign(db, cfg, u, a, target).Commit? { ReassignWithinQuota(db, cfg, a, target); }
  }

  predicate Unlocked(q: Request) {
    !q.DoPublish? && !q.DoUpdate? && !q.DoReassign?
  }

  ghost predicate OnlyDrops(db: Db, d: Db) {
    && (forall a <- d.artifacts :: a in db.artifacts && d.artifacts[a] == db.artifacts[a])
    && (forall k <- d.versions :: k in db.versions && d.versions[k] == db.versions[k])
  }

  /** Requests that take no quota lock never add or change an artifact or a version. */
  lemma UnlockedOnlyDrops(db: Db, cfg: Config, q: Request)
    requires Unlocked(q)
    ensures OnlyDrops(db, After(db, Perform(db, cfg, q)))
  {
    if q.DoDeleteVersion? || q.DoPrune? || q.DoDeleteArtifact? || q.DoAdminDelete? {
    } else {
      SparesArtifacts(db, cfg, q);
    }
  }

  lemma PerformWithinQuota(db: Db, cfg: Config, q: Request)
    requires WithinQuota(db, cfg) && Faithful(db, cfg.maxVersions)
    ensures WithinQuota(After(db, Perform(db, cfg, q)), cfg)
  {
    match q
    case DoPublish(c, a, content, format, title, language) =>
      PublishRequestWithin(db, cfg, c, a, content, format, title, language);
    case DoUpdate(c, a, content, base, format, title, language) =>
      UpdateRequestWithin(db, cfg, c, a, content, base, format, title, language);
    case DoReassign(u, a, target) => ReassignRequestWithin(db, cfg, u, a, target);
    case _ =>
      UnlockedOnlyDrops(db, cfg, q);
      DropWithinQuota(db, After(db, Perform(db, cfg, q)), cfg);
  }

  // ---- the bound that survives reassignment ----

  lemma {:induction false} RowsPerArtifact(versions: Versions, owned: set<ArtifactId>, rows: set<VersionKey>, n: nat)
    requires forall k <- rows :: k in versions && k.artifact in owned
    requires forall a <- owned :: |VersionsOf(versions, a)| <= n
    ensures |rows| <= |owned| * n
    decreases |owned|
  {
    if owned == {} {
      assert rows == {};
    } else {
      var a := Retention.Member(owned);
      var mine := set k | k in rows && k.artifact == a;
      RowsOfOne(versions, a, mine);
      RowsPerArtifact(versions, owned - {a}, rows - mine, n);
      SplitSize(rows, mine);
      OneLess(|owned|, n);
    }
  }

  lemma SplitSize<T>(all: set<T>, part: set<T>)
    requires part <= all
    ensures |all| == |part| + |all - part|
  {
    assert all == part + (all - part);
  }

  lemma OneLess(size: nat, n: nat)
    requires size > 0
    ensures size * n == (size - 1) * n + n
  {
  }

  lemma {:induction false} RowsOfOne(versions: Versions, a: ArtifactId, rows: set<VersionKey>)
    requires forall k <- rows :: k in versions && k.artifact == a
    ensures |rows| <= |VersionsOf(versions, a)|
    decreases |rows|
  {
    var numbers := set k | k in rows :: k.version;
    KeysByNumber(a, rows, numbers);
    Retention.SubsetSizeOf(numbers, VersionsOf(versions, a));
  }

  lemma {:induction false} KeysByNumber(a: ArtifactId, rows: set<VersionKey>, numbers: set<int>)
    requires forall k <- rows :: k.artifact == a && k.version in numbers
    ensures |rows| <= |numbers|
    decreases |rows|
  {
    if rows != {} {
      var k := Retention.Member(rows);
      forall j | j in rows - {k} ensures j.version in numbers - {k.version} {
        assert j == VersionKey(a, j.version) && k == VersionKey(a, k.version);
      }
      KeysByNumber(a, rows - {k}, numbers - {k.version});
    }
  }

  /** So many artifacts, so many versions of each, so many bytes in each. */
  lemma StoredWithinRows(artifacts: Artifacts, versions: Versions, cfg: Config, c: ConnId)
    requires |Owned(artifacts, c)| <= cfg.maxArtifacts && RowsSmall(versions, cfg)
    requires forall a <- Owned(artifacts, c) :: |VersionsOf(versions, a)| <= cfg.maxVersions
    ensures Total(StoredRows(artifacts, versions, c)) <= cfg.maxArtifacts * cfg.maxVersions * cfg.maxArtifactBytes
  {
    var rows := StoredRows(artifacts, versions, c);
    RowsPerArtifact(versions, Owned(artifacts, c), rows.Keys, cfg.maxVersions);
    TotalBounded(rows, cfg.maxArtifactBytes);
    assert |rows| == |rows.Keys|;
    Multiply(|rows|, |Owned(artifacts, c)|, cfg.maxArtifacts, cfg.maxVersions, cfg.maxArtifactBytes);
  }

  /** Stored bytes stay within count cap x version cap x per-artifact cap, reassigned or not. */
  lemma StoredBytesBounded(db: Db, cfg: Config, c: ConnId)
    requires WithinQuota(db, cfg) && Faithful(db, cfg.maxVersions)
    ensures StoredBytes(db, c) <= cfg.maxArtifacts * cfg.maxVersions * cfg.maxArtifactBytes
  {
    forall a | a in Owned(db.artifacts, c) ensures |VersionsOf(db.versions, a)| <= cfg.maxVersions {
      assert HistoryOf(db.artifacts, db.versions, cfg.maxVersions, a);
    }
    StoredWithinRows(db.artifacts, db.versions, cfg, c);
  }

  lemma Multiply(rows: nat, owned: nat, artifacts: nat, versions: nat, bytes: nat)
    requires rows <= owned * versions && owned <= artifacts
    ensures rows * bytes <= artifacts * versions * bytes
  {
    assert owned * versions <= artifacts * versions;
    assert rows <= artifacts * versions;
  }

  /** Every run of atomic requests, reassignments included: the artifact count and the live bytes
      of every connection stay within their caps, and so do its stored bytes within the weaker bound. */
  lemma {:induction false} RunsStayWithinQuota(db: Db, cfg: Config, requests: seq<Request>, c: ConnId)
    requires ContentOk(db) && Faithful(db, cfg.maxVersions) && WithinQuota(db, cfg) && cfg.maxVersions > 0
    ensures var d := PerformAll(db, cfg, requests);
            && |Owned(d.artifacts, c)| <= cfg.maxArtifacts
            && Total(CurrentRows(d.artifacts, c)) <= cfg.maxTotalBytes
            && StoredBytes(d, c) <= cfg.maxArtifacts * cfg.maxVersions * cfg.maxArtifactBytes
    decreases |requests|
  {
    if requests == [] {
      StoredBytesBounded(db, cfg, c);
    } else {
      PerformKeeps(db, cfg, requests[0]);
      PerformKeepsHistory(db, cfg, requests[0]);
      PerformWithinQuota(db, cfg, requests[0]);
      RunsStayWithinQuota(After(db, Perform(db, cfg, requests[0])), cfg, requests[1..], c);
    }
  }

  // ---- the stored-bytes cap itself ----

  /** What reassign_artifact_connection would have to check: that the target can take the whole history. */
  ghost predicate MoveFits(db: Db, cfg: Config, a: ArtifactId, target: ConnId) {
    StoredBytes(db, target) + Total(HistoryRows(db.versions, a)) <= cfg.maxTotalBytes
  }

  /** An accepted reassignment keeps every connection within its stored-bytes cap exactly when the
      target can take the whole history; the code checks the current size only. */
  lemma ReassignSafeExactly(db: Db, cfg: Config, u: UserId, a: ArtifactId, target: ConnId)
    requires StoredOk(db.artifacts, db.versions, cfg) && Reassign(db, cfg, u, a, target).Commit?
    ensures var d := Reassign(db, cfg, u, a, target).db;
            StoredOk(d.artifacts, d.versions, cfg) <==> MoveFits(db, cfg, a, target)
  {
    var d := Reassign(db, cfg, u, a, target).db;
    ReassignMovesHistory(db.artifacts, db.versions, a, target);
    if MoveFits(db, cfg, a, target) {
      forall e ensures Total(StoredRows(d.artifacts, d.versions, e)) <= cfg.maxTotalBytes {
        assert Total(StoredRows(db.artifacts, db.versions, e)) <= cfg.maxTotalBytes;
      }
    }
  }

  /** An artifact pruned to its current version passes that check whenever it passes the code's. */
  lemma PrunedArtifactsFit(db: Db, cfg: Config, u: UserId, a: ArtifactId, target: ConnId)
    requires Faithful(db, cfg.maxVersions) && Reassign(db, cfg, u, a, target).Commit?
    requires VersionsOf(db.versions, a) == {db.artifacts[a].version}
    ensures MoveFits(db, cfg, a, target)
  {
    HistoryCoversCurrent(db.artifacts, db.versions, cfg.maxVersions, a);
  }

  /** Every reassignment that is accepted would also have passed the check on the whole history. */
  ghost predicate Tame(db: Db, cfg: Config, q: Request) {
    q.DoReassign? && Perform(db, cfg, q).Commit? ==> MoveFits(db, cfg, q.a, q.target)
  }

  ghost predicate TameRun(db: Db, cfg: Config, requests: seq<Request>)
    decreases |requests|
  {
    requests != [] ==>
        Tame(db, cfg, requests[0]) && TameRun(After(db, Perform(db, cfg, requests[0])), cfg, requests[1..])
  }

  /** The cap holds in every state the run goes through. */
  ghost predicate AlwaysWithinCap(db: Db, cfg: Config, requests: seq<Request>)
    decreases |requests|
  {
    && StoredOk(db.artifacts, db.versions, cfg)
    && (requests != [] ==> AlwaysWithinCap(After(db, Perform(db, cfg, requests[0])), cfg, requests[1..]))
  }

  lemma PublishStored(db: Db, cfg: Config, c: ConnId, a: ArtifactId, row: VersionRow)
    requires ContentOk(db) && StoredOk(db.artifacts, db.versions, cfg)
    requires NewArtifactQuota(db, cfg, c, row.byteSize).None? && PublishCommit(db, c, a, row).Commit?
    ensures var d := PublishCommit(db, c, a, row).db; StoredOk(d.artifacts, d.versions, cfg)
  {
    var d := PublishCommit(db, c, a, row).db;
    forall e ensures Total(StoredRows(d.artifacts, d.versions, e)) <= cfg.maxTotalBytes {
      NewRow(db.artifacts, db.versions, d.artifacts, VersionKey(a, 1), row, e);
    }
  }

  lemma UpdateStored(db: Db, cfg: Config, a: ArtifactId, base: int, row: VersionRow)
    requires ContentOk(db) && StoredOk(db.artifacts, db.versions, cfg)
    requires a in db.artifacts && UpdateQuota(db, cfg, db.artifacts[a].connectionId, row.byteSize).None?
    requires UpdateCommit(db, cfg, a, base, row).Commit?
    ensures var d := UpdateCommit(db, cfg, a, base, row).db; StoredOk(d.artifacts, d.versions, cfg)
  {
    var w := Appended(db, a, base, row);
    var d := UpdateCommit(db, cfg, a, base, row).db;
    forall e ensures Total(StoredRows(d.artifacts, d.versions, e)) <= cfg.maxTotalBytes {
      NewRow(db.artifacts, db.versions, w.artifacts, VersionKey(a, base + 1), row, e);
      FewerRows(w.artifacts, w.versions, d.artifacts, d.versions, e);
    }
  }

  lemma UnlockedStored(db: Db, cfg: Config, q: Request)
    requires Unlocked(q) && StoredOk(db.artifacts, db.versions, cfg)
    ensures var d := After(db, Perform(db, cfg, q)); StoredOk(d.artifacts, d.versions, cfg)
  {
    UnlockedOnlyDrops(db, cfg, q);
    var d := After(db, Perform(db, cfg, q));
    forall e ensures Total(StoredRows(d.artifacts, d.versions, e)) <= cfg.maxTotalBytes {
      FewerRows(db.artifacts, db.versions, d.artifacts, d.versions, e);
    }
  }

  /** One request keeps every connection within its stored-bytes cap exactly when it is not a
      reassignment of more history than its target can take. */
  lemma PerformStored(db: Db, cfg: Config, q: Request)
    requires ContentOk(db) && StoredOk(db.artifacts, db.versions, cfg)
    ensures var d := After(db, Perform(db, cfg, q)); StoredOk(d.artifacts, d.versions, cfg) <==> Tame(db, cfg, q)
  {
    if Perform(db, cfg, q).Commit? {
      match q
      case DoPublish(c, a, content, format, title, language) =>
        PublishStored(db, cfg, c, a,
          VersionRow(title, ParseFormat(format).value, language, content, ByteSize(content, title, language)));
      case DoUpdate(c, a, content, base, format, title, language) =>
        var parsed := if format.Some? then ParseFormat(format.value) else Some(db.artifacts[a].format);
        UpdateStored(db, cfg, a, base, NewVersion(db.artifacts[a], content, parsed.value, title, language));
      case DoReassign(u, a, target) => ReassignSafeExactly(db, cfg, u, a, target);
      case _ => UnlockedStored(db, cfg, q);
    }
  }

  /** Over a whole run: no connection ever stores more than its cap if and only if every accepted
      reassignment moved a history its target could take. */
  lemma {:induction false} StoredCapHoldsExactly(db: Db, cfg: Config, requests: seq<Request>)
    requires ContentOk(db) && StoredOk(db.artifacts, db.versions, cfg)
    ensures AlwaysWithinCap(db, cfg, requests) <==> TameRun(db, cfg, requests)
    decreases |requests|
  {
    if requests != [] {
      PerformKeeps(db, cfg, requests[0]);
      PerformStored(db, cfg, requests[0]);
      if Tame(db, cfg, requests[0]) {
        StoredCapHoldsExactly(After(db, Perform(db, cfg, requests[0])), cfg, requests[1..]);
      }
    }
  }

  // ---- and why that is not always so ----

  const TIGHT := Config(5, 5, 1, 5, 5, 5)

  /** Connection 1 published "a" and then emptied it; connection 2 published "b". One byte is the cap. */
  const FULL := EMPTY.(
    users := map[0 := "a@example.org"],
    conns := map[1 := ConnRow(0, None, None, None, None), 2 := ConnRow(0, None, None, None, None)],
    artifacts := map[
      5 := ArtifactRow(1, None, Html, None, "", 2, 0),
      6 := ArtifactRow(2, None, Html, None, "b", 1, 1)],
    versions := map[
      VersionKey(5, 1) := VersionRow(None, Html, None, "a", 1),
      VersionKey(5, 2) := VersionRow(None, Html, None, "", 0),
      VersionKey(6, 1) := VersionRow(None, Html, None, "b", 1)])

  lemma StoredByOne()
    ensures StoredBytes(FULL, 1) == 1 && Total(HistoryRows(FULL.versions, 5)) == 1
  {
    var none: map<VersionKey, nat> := map[];
    var one := none[VersionKey(5, 1) := 1];
    TotalInsert(none, VersionKey(5, 1), 1);
    TotalInsert(one, VersionKey(5, 2), 0);
    assert StoredRows(FULL.artifacts, FULL.versions, 1) == one[VersionKey(5, 2) := 0];
    assert HistoryRows(FULL.versions, 5) == one[VersionKey(5, 2) := 0];
  }

  lemma StoredByTwo()
    ensures StoredBytes(FULL, 2) == 1
  {
    var none: map<VersionKey, nat> := map[];
    TotalInsert(none, VersionKey(6, 1), 1);
    assert StoredRows(FULL.artifacts, FULL.versions, 2) == none[VersionKey(6, 1) := 1];
  }

  lemma StoredByOthers(c: ConnId)
    requires c != 1 && c != 2
    ensures StoredBytes(FULL, c) == 0
  {
    assert StoredRows(FULL.artifacts, FULL.versions, c) == map[];
  }

  lemma FullIsWithinCap()
    ensures StoredOk(FULL.artifacts, FULL.versions, TIGHT)
  {
    forall c ensures Total(StoredRows(FULL.artifacts, FULL.versions, c)) <= 1 {
      if c == 1 { StoredByOne(); } else if c == 2 { StoredByTwo(); } else { StoredByOthers(c); }
    }
  }

  lemma OneLetter(s: string)
    requires |s| == 1 && s[0] as int < 0x80
    ensures ByteSize(s, None, None) == 1 && ByteSize("", None, None) == 0
  {
    assert s[1..] == [];
  }

  lemma FullIsFaithful()
    ensures ContentOk(FULL) && Faithful(FULL, TIGHT.maxVersions)
  {
    OneLetter("a");
    OneLetter("b");
    assert VersionsOf(FULL.versions, 5) == {1, 2} by {
      assert VersionKey(5, 1) in FULL.versions && VersionKey(5, 2) in FULL.versions;
    }
    assert VersionsOf(FULL.versions, 6) == {1} by { assert VersionKey(6, 1) in FULL.versions; }
    assert HistoryOf(FULL.artifacts, FULL.versions, 5, 5);
    assert HistoryOf(FULL.artifacts, FULL.versions, 5, 6);
  }

  lemma ReassignIsLetThrough()
    ensures Reassign(FULL, TIGHT, 0, 5, 2).Commit?
    ensures Reassign(FULL, TIGHT, 0, 5, 2).db.versions == FULL.versions
    ensures Reassign(FULL, TIGHT, 0, 5, 2).db.artifacts == FULL.artifacts[5 := FULL.artifacts[5].(connectionId := 2)]
  {
    StoredByTwo();
    assert Owned(FULL.artifacts, 2) == {6};
  }

  /** In this legal state, with every connection within its cap, one reassignment is let through
      and leaves the target storing twice its cap. */
  lemma ReassignBreaksStoredCap()
    ensures ContentOk(FULL) && StoredOk(FULL.artifacts, FULL.versions, TIGHT) && Faithful(FULL, TIGHT.maxVersions)
    ensures Reassign(FULL, TIGHT, 0, 5, 2).Commit?
    ensures StoredBytes(Reassign(FULL, TIGHT, 0, 5, 2).db, 2) == 2 * TIGHT.maxTotalBytes
  {
    FullIsWithinCap();
    FullIsFaithful();
    ReassignIsLetThrough();
    StoredByOne();
    StoredByTwo();
    ReassignMovesHistory(FULL.artifacts, FULL.versions, 5, 2);
  }
}
