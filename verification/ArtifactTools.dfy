/** tools.py and quotas.py, statement by statement, against the transactions of Content. */
module ArtifactTools {
  import opened Basics
  import opened Schema
  import opened Content
  import opened Database
  import Acceptance
  import ArtifactHistory
  import Retention
  import Utf8

  // ---- quotas.py ----

  /** _connection_stored_bytes */
  method ConnectionStoredBytes(store: Store, c: ConnId) returns (total: nat)
    ensures total == StoredBytes(store.Rows(), c)
  {
    total := SelectSum(StoredRows(store.artifacts, store.versions, c));
  }

  /** check_new_artifact_quota */
  method CheckNewArtifactQuota(store: Store, cfg: Config, c: ConnId, size: nat) returns (error: Option<Error>)
    ensures error == NewArtifactQuota(store.Rows(), cfg, c, size)
  {
    if size > cfg.maxArtifactBytes { return Some(QuotaExceeded); }
    var count := |Owned(store.artifacts, c)|;
    if count >= cfg.maxArtifacts { return Some(QuotaExceeded); }
    var total := ConnectionStoredBytes(store, c);
    if total + size > cfg.maxTotalBytes { return Some(QuotaExceeded); }
    return None;
  }

  /** check_update_quota */
  method CheckUpdateQuota(store: Store, cfg: Config, c: ConnId, size: nat) returns (error: Option<Error>)
    ensures error == UpdateQuota(store.Rows(), cfg, c, size)
  {
    if size > cfg.maxArtifactBytes { return Some(QuotaExceeded); }
    var total := ConnectionStoredBytes(store, c);
    if total + size > cfg.maxTotalBytes { return Some(QuotaExceeded); }
    return None;
  }

  // ---- tools.py ----

  /** publish_artifact, with `id` the drawn primary key */
  method PublishArtifact(store: Store, cfg: Config, c: ConnId, content: string, format: string,
                         title: Option<string>, language: Option<string>, id: ArtifactId)
    returns (error: Option<Error>)
    modifies store
    ensures Ran(old(store.Rows()), store.Rows(),
                Publish(old(store.Rows()), cfg, c, id, content, format, title, language), error)
    ensures error.None? ==>
              OwnedBy(store.Rows(), c, id) && ArtifactHistory.CurrentStored(store.artifacts, store.versions, id)
  {
    var parsed := ParseFormat(format);
    if parsed.None? { return Some(InvalidFormat); }
    if |content| > cfg.maxArtifactBytes { return Some(QuotaExceeded); }
    if MetadataTooLong(title, language) { return Some(QuotaExceeded); }
    var size := Utf8.ByteLength(content) + Utf8.ByteLength(OrEmpty(title)) + Utf8.ByteLength(OrEmpty(language));
    error := CheckNewArtifactQuota(store, cfg, c, size);
    if error.Some? { return; }
    if c !in store.conns || id in store.artifacts || VersionKey(id, 1) in store.versions {
      return Some(IntegrityError);
    }
    store.artifacts := store.artifacts[id := ArtifactRow(c, title, parsed.value, language, content, 1, size)];
    store.versions := store.versions[VersionKey(id, 1) := VersionRow(title, parsed.value, language, content, size)];
  }

  /** The retention step of update_artifact: keep the `n` newest rows of one artifact. */
  method ApplyRetention(store: Store, n: nat, a: ArtifactId)
    modifies store`versions
    ensures store.versions == Retained(old(store.versions), n, a)
  {
    var count := |VersionsOf(store.versions, a)|;
    if count > n {
      var keep := Retention.Kept(VersionsOf(store.versions, a), n);
      store.versions := map k | k in store.versions && (k.artifact == a ==> k.version in keep) :: store.versions[k];
    }
  }

  /** The writes of update_artifact: the artifact's fields one by one, its new version row, retention. */
  method WriteUpdate(store: Store, cfg: Config, a: ArtifactId, stored: VersionRow) returns (error: Option<Error>)
    requires a in store.artifacts
    modifies store
    ensures Ran(old(store.Rows()), store.Rows(),
                UpdateCommit(old(store.Rows()), cfg, a, old(store.artifacts[a].version), stored), error)
  {
    var row := store.artifacts[a];
    if VersionKey(a, row.version + 1) in store.versions { return Some(IntegrityError); }
    row := row.(content := stored.content);
    row := row.(format := stored.format);
    row := row.(byteSize := stored.byteSize);
    row := row.(title := stored.title);
    row := row.(language := stored.language);
    row := row.(version := row.version + 1);
    store.artifacts := store.artifacts[a := row];
    store.versions := store.versions[VersionKey(a, row.version) := stored];
    ApplyRetention(store, cfg.maxVersions, a);
    return None;
  }

  /** update_artifact */
  method UpdateArtifact(store: Store, cfg: Config, c: ConnId, a: ArtifactId, content: string, base: int,
                        format: Option<string>, title: Option<string>, language: Option<string>)
    returns (error: Option<Error>)
    modifies store
    ensures Ran(old(store.Rows()), store.Rows(),
                Update(old(store.Rows()), cfg, c, a, content, base, format, title, language), error)
    ensures error.None? ==>
              && a in old(store.artifacts) && old(store.artifacts)[a].version == base
              && a in store.artifacts && store.artifacts[a].version == base + 1 && store.artifacts[a].content == content
  {
    if |content| > cfg.maxArtifactBytes { return Some(QuotaExceeded); }
    if MetadataTooLong(title, language) { return Some(QuotaExceeded); }
    if a !in store.artifacts || store.artifacts[a].connectionId != c { return Some(NotFound); }
    var row := store.artifacts[a];
    if row.version != base { return Some(VersionConflict); }
    var parsed := if format.Some? then ParseFormat(format.value) else Some(row.format);
    if parsed.None? { return Some(InvalidFormat); }
    var newTitle := if title.Some? then title else row.title;
    var newLanguage := if language.Some? then language else row.language;
    var size := Utf8.ByteLength(content) + Utf8.ByteLength(OrEmpty(newTitle)) + Utf8.ByteLength(OrEmpty(newLanguage));
    error := CheckUpdateQuota(store, cfg, c, size);
    if error.Some? { return; }
    error := WriteUpdate(store, cfg, a, VersionRow(newTitle, parsed.value, newLanguage, content, size));
  }

  /** reassign_artifact_connection */
  method ReassignArtifactConnection(store: Store, cfg: Config, u: UserId, a: ArtifactId, target: ConnId)
    returns (error: Option<Error>)
    modifies store
    ensures Ran(old(store.Rows()), store.Rows(), Reassign(old(store.Rows()), cfg, u, a, target), error)
    ensures !Acceptance.Theirs(old(store.Rows()), u, a) ==> error == Some(NotFound)
    ensures error.None? ==>
              && Acceptance.Theirs(old(store.Rows()), u, a) && Acceptance.Theirs(store.Rows(), u, a)
              && store.artifacts[a].connectionId == target
              && store.conns[target].userId == u && store.conns[target].revokedAt.None?
              && ArtifactHistory.Snapshot(store.artifacts[a]) == ArtifactHistory.Snapshot(old(store.artifacts)[a])
  {
    Acceptance.ReassignedExactly(store.Rows(), cfg, u, a, target);
    Acceptance.ReachesExactly(store.Rows(), u, a);
    if !OwnedByUser(store.Rows(), u, a) { return Some(NotFound); }
    if target == store.artifacts[a].connectionId { return Some(InvalidTarget); }
    if !ValidTarget(store.Rows(), u, target) { return Some(InvalidTarget); }
    error := CheckNewArtifactQuota(store, cfg, target, store.artifacts[a].byteSize);
    if error.Some? { return; }
    store.artifacts := store.artifacts[a := store.artifacts[a].(connectionId := target)];
  }

  /** _delete_artifact_rows: comments and shares by hand, versions by cascade, then the artifact */
  method DeleteArtifactRows(store: Store, a: ArtifactId)
    modifies store
    ensures store.Rows() == WithoutArtifact(old(store.Rows()), a)
    ensures Acceptance.Vanished(old(store.Rows()), store.Rows(), a)
  {
    Acceptance.NothingIsLeft(store.Rows(), a);
    store.comments := map m | m in store.comments && store.comments[m].artifactId != a :: store.comments[m];
    store.shares := map s | s in store.shares && store.shares[s].artifactId != a :: store.shares[s];
    store.versions := map k | k in store.versions && k.artifact != a :: store.versions[k];
    store.artifacts := store.artifacts - {a};
  }

  /** delete_artifact */
  method DeleteOwnedArtifact(store: Store, u: UserId, a: ArtifactId) returns (error: Option<Error>)
    modifies store
    ensures Ran(old(store.Rows()), store.Rows(), DeleteArtifact(old(store.Rows()), u, a), error)
    ensures if Acceptance.Theirs(old(store.Rows()), u, a)
            then error.None? && Acceptance.Vanished(old(store.Rows()), store.Rows(), a)
            else error == Some(NotFound) && store.Rows() == old(store.Rows())
  {
    Acceptance.ReachesExactly(store.Rows(), u, a);
    if !OwnedByUser(store.Rows(), u, a) { return Some(NotFound); }
    DeleteArtifactRows(store, a);
    return None;
  }

  /** admin_delete_artifact */
  method DeleteAnyArtifact(store: Store, a: ArtifactId) returns (error: Option<Error>)
    modifies store
    ensures Ran(old(store.Rows()), store.Rows(), AdminDeleteArtifact(old(store.Rows()), a), error)
    ensures if a in old(store.artifacts)
            then error.None? && Acceptance.Vanished(old(store.Rows()), store.Rows(), a)
            else error == Some(NotFound) && store.Rows() == old(store.Rows())
  {
    if a !in store.artifacts { return Some(NotFound); }
    DeleteArtifactRows(store, a);
    return None;
  }

  // ---- versions.py ----

  /** delete_version */
  method DeleteOneVersion(store: Store, u: UserId, a: ArtifactId, v: int) returns (error: Option<Error>)
    modifies store
    ensures Ran(old(store.Rows()), store.Rows(), DeleteVersion(old(store.Rows()), u, a, v), error)
    ensures !Acceptance.Theirs(old(store.Rows()), u, a) ==> error == Some(NotFound)
    ensures error.None? <==> Acceptance.Theirs(old(store.Rows()), u, a) && v != old(store.artifacts)[a].version
                             && VersionKey(a, v) in old(store.versions)
    ensures error.None? ==> VersionKey(a, v) !in store.versions
  {
    Acceptance.VersionDeletedExactly(store.Rows(), u, a, v);
    Acceptance.ReachesExactly(store.Rows(), u, a);
    if !OwnedByUser(store.Rows(), u, a) { return Some(NotFound); }
    if v == store.artifacts[a].version { return Some(CannotDeleteCurrent); }
    var before := |store.versions|;
    ghost var was := store.versions;
    store.versions := store.versions - {VersionKey(a, v)};
    RemoveOne(was, VersionKey(a, v));
    // rowcount
    if before - |store.versions| == 0 { return Some(NotFound); }
    return None;
  }

  lemma RemoveOne(versions: map<VersionKey, VersionRow>, k: VersionKey)
    ensures |versions - {k}| == if k in versions then |versions| - 1 else |versions|
    ensures k !in versions ==> versions - {k} == versions
  {
    assert (versions - {k}).Keys == versions.Keys - {k};
  }

  /** prune_old_versions, which also reports how many rows it removed */
  method PruneOldVersions(store: Store, u: UserId, a: ArtifactId) returns (error: Option<Error>, removed: nat)
    modifies store
    ensures Ran(old(store.Rows()), store.Rows(), Prune(old(store.Rows()), u, a), error)
    ensures removed == |old(store.versions)| - |store.versions|
    ensures if Acceptance.Theirs(old(store.Rows()), u, a)
            then error.None? && forall k :: k in store.versions <==>
                   k in old(store.versions) && (k.artifact == a ==> k.version == store.artifacts[a].version)
            else error == Some(NotFound) && removed == 0
  {
    Acceptance.PrunedExactly(store.Rows(), u, a);
    Acceptance.ReachesExactly(store.Rows(), u, a);
    if !OwnedByUser(store.Rows(), u, a) { return Some(NotFound), 0; }
    var before := |store.versions|;
    ghost var was := store.versions;
    var current := store.artifacts[a].version;
    store.versions := map k | k in store.versions && (k.artifact == a ==> k.version == current) :: store.versions[k];
    assert store.versions.Keys <= was.Keys;
    Retention.SubsetSizeOf(store.versions.Keys, was.Keys);
    return None, before - |store.versions|;
  }
}
