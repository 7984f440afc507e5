/** Runs of the interleaved artifact store, from an empty one, in which promises fail: a prune and a
    delete of the row that has just become current, an update lost to a reassignment, and live bytes over
    the cap after a late prune. */
module RaceWitnesses {
  import opened Basics
  import opened Schema
  import opened Content
  import opened QuotaRaces
  import opened Totals
  import ArtifactHistory
  import Quotas
  import UpdateRaces
  import Utf8

  // ---- the scene: one user, two connections, room for everything ----

  const ROOMY := Config(5, 5, 5, 20, 5, 5)
  const CONN := ConnRow(0, None, None, None, None)
  const SHELF := EMPTY.(users := map[0 := "a@example.org"], conns := map[1 := CONN, 2 := CONN])
  const BLANK := Change("", None, None, None)

  /** The scene with artifact 5 of connection `c` at version `v`, storing the versions `rows`. */
  function Scene(c: ConnId, v: int, rows: set<int>): Db {
    SHELF.(artifacts := map[5 := ArtifactRow(c, None, Html, None, "", v, 0)],
           versions := map k: VersionKey | k in Keys(rows) :: NO_ROW)
  }

  function Keys(rows: set<int>): set<VersionKey> { set v | v in rows :: VersionKey(5, v) }

  const START := Arena(SHELF, map[], map[], map[], map[], {}, [])

  /** Everything stored is empty, so every quota check passes. */
  lemma NothingStored(rows: set<int>, c: ConnId, owner: ConnId, v: int)
    ensures StoredBytes(Scene(owner, v, rows), c) == 0 && |Owned(Scene(owner, v, rows).artifacts, c)| <= 1
    ensures StoredBytes(SHELF, c) == 0 && |Owned(SHELF.artifacts, c)| == 0
  {
    var db := Scene(owner, v, rows);
    TotalBounded(StoredRows(db.artifacts, db.versions, c), 0);
    assert StoredRows(SHELF.artifacts, SHELF.versions, c) == map[];
    assert Owned(SHELF.artifacts, c) == {};
    assert Owned(db.artifacts, c) == if c == owner then {5} else {};
  }

  lemma BlankSize()
    ensures ByteSize("", None, None) == 0
  {
  }

  /** One more version: the row is added, and the twenty that may be kept are not reached. */
  lemma UpdateInScene(c: ConnId, v: int, rows: set<int>)
    requires v in rows && v + 1 !in rows && |rows| < 10
    ensures Update(Scene(c, v, rows), ROOMY, c, 5, "", v, None, None, None) == Commit(Scene(c, v + 1, rows + {v + 1}))
  {
    CommitInScene(c, v, v, rows);
    NothingStored(rows, c, c, v);
    BlankSize();
  }

  /** The same for the commit alone, whatever the current version is. */
  lemma CommitInScene(c: ConnId, v: int, base: int, rows: set<int>)
    requires base + 1 !in rows && |rows| < 10
    ensures UpdateCommit(Scene(c, v, rows), ROOMY, 5, base, NO_ROW) == Commit(Scene(c, base + 1, rows + {base + 1}))
  {
    var db := Scene(c, v, rows);
    var more := rows + {base + 1};
    var written := Appended(db, 5, base, NO_ROW);
    assert VersionKey(5, base + 1) !in db.versions;
    assert written.versions == Scene(c, v, more).versions;
    assert VersionsOf(written.versions, 5) == more by {
      forall n | n in more ensures n in VersionsOf(written.versions, 5) { assert VersionKey(5, n) in written.versions; }
    }
    assert |more| <= 10;
  }

  lemma PublishInScene()
    ensures PublishCommit(SHELF, 1, 5, NO_ROW) == Commit(Scene(1, 1, {1}))
  {
    assert SHELF.versions[VersionKey(5, 1) := NO_ROW] == Scene(1, 1, {1}).versions;
  }

  lemma ReassignInScene(v: int, rows: set<int>)
    ensures Reassign(Scene(1, v, rows), ROOMY, 0, 5, 2) == Commit(Scene(2, v, rows))
  {
    NothingStored(rows, 2, 1, v);
  }

  lemma PruneInScene(c: ConnId, v: int, read: int, rows: set<int>)
    ensures AllButVersion(Scene(c, v, rows), 5, read) == Scene(c, v, rows * {read}).versions
  {
  }

  lemma DeleteInScene(c: ConnId, v: int, n: int, rows: set<int>)
    ensures Scene(c, v, rows).versions - {VersionKey(5, n)} == Scene(c, v, rows - {n}).versions
  {
  }

  /** One leg of a run after another. */
  lemma Then(w: Arena, leg: seq<Event>, mid: Arena, rest: seq<Event>, end: Arena)
    requires Run(w, ROOMY, leg) == mid && Run(mid, ROOMY, rest) == end
    ensures Run(w, ROOMY, leg + rest) == end
  {
    RunAppend(w, ROOMY, leg, rest);
  }

  // ---- the current row lost ----

  const PUBLISHED := START.(db := Scene(1, 1, {1}), first := map[5 := 1])

  lemma Published()
    ensures Run(START, ROOMY, PublishSteps(0, 1, NO_ROW, 5)) == PUBLISHED
  {
    NothingStored({}, 1, 1, 1);
    UndisturbedPublish(START, ROOMY, 0, 1, NO_ROW, 5);
    PublishInScene();
  }

  /** Published, a drop begun, one update committed, the drop finished. */
  function DropRun(begin: Event): seq<Event> {
    PublishSteps(0, 1, NO_ROW, 5) + ([begin] + (UpdateSteps(1, 1, 5, 1, BLANK) + [FinishDrop(9)]))
  }

  lemma UpdatedUnderDrop(drop: Drop)
    ensures Run(PUBLISHED.(drops := map[9 := drop]), ROOMY, UpdateSteps(1, 1, 5, 1, BLANK))
         == PUBLISHED.(drops := map[9 := drop], db := Scene(1, 2, {1, 2}), wins := [Win(5, 1)])
  {
    UndisturbedUpdate(PUBLISHED.(drops := map[9 := drop]), ROOMY, 1, 1, 5, 1, BLANK);
    UpdateInScene(1, 1, {1});
    assert {1} + {2} == {1, 2};
  }

  lemma DropRunReaches(begin: Event, drop: Drop, updated: Arena, end: Arena)
    requires Next(PUBLISHED, ROOMY, begin) == PUBLISHED.(drops := map[9 := drop])
    requires updated == PUBLISHED.(drops := map[9 := drop], db := Scene(1, 2, {1, 2}), wins := [Win(5, 1)])
    requires Run(updated, ROOMY, [FinishDrop(9)]) == end
    ensures Run(START, ROOMY, DropRun(begin)) == end
  {
    var begun := PUBLISHED.(drops := map[9 := drop]);
    var update := UpdateSteps(1, 1, 5, 1, BLANK);
    UpdatedUnderDrop(drop);
    Then(begun, update, updated, [FinishDrop(9)], end);
    OneStep(PUBLISHED, ROOMY, begin);
    Then(PUBLISHED, [begin], begun, update + [FinishDrop(9)], end);
    Published();
    Then(START, PublishSteps(0, 1, NO_ROW, 5), PUBLISHED, [begin] + (update + [FinishDrop(9)]), end);
  }

  lemma Finishes(w: Arena, r: RequestId)
    requires r in w.drops
    ensures Run(w, ROOMY, [FinishDrop(r)]) == StepFinishDrop(w, r)
  {
    OneStep(w, ROOMY, FinishDrop(r));
  }

  lemma DropRunEnds(begin: Event, drop: Drop)
    requires Next(PUBLISHED, ROOMY, begin) == PUBLISHED.(drops := map[9 := drop])
    ensures Run(START, ROOMY, DropRun(begin)).db == Scene(1, 2, {1, 2}).(versions := Rest(Scene(1, 2, {1, 2}), drop))
  {
    var updated := PUBLISHED.(drops := map[9 := drop], db := Scene(1, 2, {1, 2}), wins := [Win(5, 1)]);
    Finishes(updated, 9);
    DropRunReaches(begin, drop, updated, StepFinishDrop(updated, 9));
  }

  /** From an empty store: publish, a prune that reads version 1, an update to version 2, the prune's
      DELETE. The artifact is left without the row of its current version. */
  lemma PruneLosesCurrentRow()
    ensures Quiet(START) && START.db.artifacts == map[]
    ensures var d := Run(START, ROOMY, DropRun(BeginPrune(9, 0, 5))).db;
            && 5 in d.artifacts && d.artifacts[5].version == 2 && VersionsOf(d.versions, 5) == {1}
            && !ArtifactHistory.CurrentStored(d.artifacts, d.versions, 5)
  {
    DropRunEnds(BeginPrune(9, 0, 5), Pruning(5, 1, 0));
    PruneInScene(1, 2, 1, {1, 2});
    assert {1, 2} * {1} == {1};
    SceneVersions(1, 2, {1});
  }

  lemma SceneVersions(c: ConnId, v: int, rows: set<int>)
    ensures VersionsOf(Scene(c, v, rows).versions, 5) == rows
  {
    forall n | n in rows ensures n in VersionsOf(Scene(c, v, rows).versions, 5) {
      assert VersionKey(5, n) in Scene(c, v, rows).versions;
    }
  }

  /** The same with delete_version of version 2, asked for while version 1 was current. */
  lemma DeleteLosesCurrentRow()
    ensures var d := Run(START, ROOMY, DropRun(BeginDelete(9, 0, 5, 2))).db;
            && 5 in d.artifacts && d.artifacts[5].version == 2 && VersionsOf(d.versions, 5) == {1}
            && !ArtifactHistory.CurrentStored(d.artifacts, d.versions, 5)
  {
    DropRunEnds(BeginDelete(9, 0, 5, 2), Deleting(5, 2, 1, 0));
    DeleteInScene(1, 2, 2, {1, 2});
    assert {1, 2} - {2} == {1};
    SceneVersions(1, 2, {1});
  }

  // ---- an update lost ----

  /** Connection 1's update is cleared on version 1; the artifact moves to connection 2, which updates it
      twice and prunes; then the first update commits. */
  const STALE := Cleared(Updating(1, 5, 1, BLANK), NO_ROW)

  function ClearedSteps(): seq<Event> {
    [BeginUpdate(7, 1, 5, 1, BLANK), Acquire(7), Load(7), Check(7)]
  }

  /** Everything that happens between publication and the stale commit. */
  function Prelude(): seq<Event> {
    ClearedSteps() + (ReassignSteps(8, 0, 5, 2) + (UpdateSteps(1, 2, 5, 1, BLANK)
      + (UpdateSteps(2, 2, 5, 2, BLANK) + [BeginPrune(9, 0, 5), FinishDrop(9)])))
  }

  function BeforeStaleCommit(): seq<Event> { PublishSteps(0, 1, NO_ROW, 5) + Prelude() }

  /** The arena while the stale update waits. */
  function Waiting7(c: ConnId, v: int, rows: set<int>, moved: set<ArtifactId>, wins: seq<Win>): Arena {
    PUBLISHED.(db := Scene(c, v, rows), pcs := map[7 := STALE], locks := map[1 := 7], moved := moved, wins := wins)
  }

  lemma ClearedBlank()
    ensures Run(PUBLISHED, ROOMY, ClearedSteps()) == Waiting7(1, 1, {1}, {}, [])
  {
    FourSteps(PUBLISHED, ROOMY, BeginUpdate(7, 1, 5, 1, BLANK), Acquire(7), Load(7), Check(7));
    UpdateLoads(PUBLISHED, ROOMY, 7, Updating(1, 5, 1, BLANK));
    BlankSize();
    assert RowToStore(PUBLISHED.db, Updating(1, 5, 1, BLANK)) == Some(NO_ROW);
    NothingStored({1}, 1, 1, 1);
  }

  lemma MovedOn(v: int, rows: set<int>, wins: seq<Win>, r: RequestId)
    requires v in rows && v + 1 !in rows && |rows| < 10 && r != 7
    ensures Run(Waiting7(2, v, rows, {5}, wins), ROOMY, UpdateSteps(r, 2, 5, v, BLANK))
         == Waiting7(2, v + 1, rows + {v + 1}, {5}, wins + [Win(5, v)])
  {
    UndisturbedUpdate(Waiting7(2, v, rows, {5}, wins), ROOMY, r, 2, 5, v, BLANK);
    UpdateInScene(2, v, rows);
  }

  lemma MoveInScene()
    ensures Run(Waiting7(1, 1, {1}, {}, []), ROOMY, ReassignSteps(8, 0, 5, 2)) == Waiting7(2, 1, {1}, {5}, [])
  {
    UndisturbedReassign(Waiting7(1, 1, {1}, {}, []), ROOMY, 8, 0, 5, 2);
    ReassignInScene(1, {1});
    assert {} + {5} == {5};
  }

  lemma PrunedTo3()
    ensures Run(Waiting7(2, 3, {1, 2, 3}, {5}, [Win(5, 1), Win(5, 2)]), ROOMY, [BeginPrune(9, 0, 5), FinishDrop(9)])
         == Waiting7(2, 3, {3}, {5}, [Win(5, 1), Win(5, 2)])
  {
    UndisturbedPrune(Waiting7(2, 3, {1, 2, 3}, {5}, [Win(5, 1), Win(5, 2)]), ROOMY, 9, 0, 5);
    PruneInScene(2, 3, 3, {1, 2, 3});
    assert {1, 2, 3} * {3} == {3};
  }

  const AT3 := Waiting7(2, 3, {3}, {5}, [Win(5, 1), Win(5, 2)])

  lemma UpdatedTwiceAndPruned()
    ensures Run(Waiting7(2, 1, {1}, {5}, []), ROOMY, UpdateSteps(1, 2, 5, 1, BLANK)
              + (UpdateSteps(2, 2, 5, 2, BLANK) + [BeginPrune(9, 0, 5), FinishDrop(9)])) == AT3
  {
    var prune := [BeginPrune(9, 0, 5), FinishDrop(9)];
    var once := Waiting7(2, 2, {1, 2}, {5}, [Win(5, 1)]);
    var twice := Waiting7(2, 3, {1, 2, 3}, {5}, [Win(5, 1), Win(5, 2)]);
    PrunedTo3();
    MovedOn(2, {1, 2}, [Win(5, 1)], 2);
    assert {1, 2} + {3} == {1, 2, 3} && [Win(5, 1)] + [Win(5, 2)] == [Win(5, 1), Win(5, 2)];
    Then(once, UpdateSteps(2, 2, 5, 2, BLANK), twice, prune, AT3);
    MovedOn(1, {1}, [], 1);
    assert {1} + {2} == {1, 2} && [] + [Win(5, 1)] == [Win(5, 1)];
    Then(Waiting7(2, 1, {1}, {5}, []), UpdateSteps(1, 2, 5, 1, BLANK), once,
         UpdateSteps(2, 2, 5, 2, BLANK) + prune, AT3);
  }

  lemma PreludeEnds()
    ensures Run(START, ROOMY, BeforeStaleCommit()) == AT3
  {
    var updates := UpdateSteps(1, 2, 5, 1, BLANK)
        + (UpdateSteps(2, 2, 5, 2, BLANK) + [BeginPrune(9, 0, 5), FinishDrop(9)]);
    UpdatedTwiceAndPruned();
    MoveInScene();
    Then(Waiting7(1, 1, {1}, {}, []), ReassignSteps(8, 0, 5, 2), Waiting7(2, 1, {1}, {5}, []), updates, AT3);
    ClearedBlank();
    Then(PUBLISHED, ClearedSteps(), Waiting7(1, 1, {1}, {}, []), ReassignSteps(8, 0, 5, 2) + updates, AT3);
    Published();
    Then(START, PublishSteps(0, 1, NO_ROW, 5), PUBLISHED, Prelude(), AT3);
  }

  /** From an empty store: the last commit takes the artifact from version 3 back to version 2. Three
      updates were accepted, base 1 was consumed twice, and the content of versions 2 and 3 is gone. */
  lemma ReassignLosesUpdates()
    ensures var w := Run(START, ROOMY, BeforeStaleCommit());
            5 in w.db.artifacts && w.db.artifacts[5].version == 3 && UpdateRaces.LandsStale(w, CommitUpdate(7))
    ensures var v := Run(START, ROOMY, BeforeStaleCommit() + [CommitUpdate(7)]);
            && 5 in v.db.artifacts && v.db.artifacts[5].version == 2 && v.wins == [Win(5, 1), Win(5, 2), Win(5, 1)]
  {
    PreludeEnds();
    StaleCommit();
    OneStep(AT3, ROOMY, CommitUpdate(7));
    Then(START, BeforeStaleCommit(), AT3, [CommitUpdate(7)], Next(AT3, ROOMY, CommitUpdate(7)));
  }

  lemma CommitStep(w: Arena, r: RequestId, d: Db)
    requires r in w.pcs && w.pcs[r].Cleared? && w.pcs[r].job.Updating?
    requires UpdateCommit(w.db, ROOMY, w.pcs[r].job.a, w.pcs[r].job.base, w.pcs[r].row) == Commit(d)
    ensures var v := Next(w, ROOMY, CommitUpdate(r));
            v.db == d && v.wins == w.wins + [Win(w.pcs[r].job.a, w.pcs[r].job.base)]
  {
  }

  lemma StaleCommit()
    ensures var v := Next(AT3, ROOMY, CommitUpdate(7));
            && v.db == Scene(2, 2, {3, 2}) && v.wins == [Win(5, 1), Win(5, 2), Win(5, 1)]
  {
    CommitInScene(2, 3, 1, {3});
    CommitStep(AT3, 7, Scene(2, 2, {3} + {2}));
    assert {3} + {2} == {3, 2};
  }

  // ---- the live bytes over the cap, without reassignment ----

  const ABC := VersionRow(None, Html, None, "abc", 3)
  const WRITE_ABC := Change("abc", None, None, None)
  const FIVE := ArtifactRow(1, None, Html, None, "abc", 2, 3)
  const SIX := ArtifactRow(1, None, Html, None, "abc", 1, 3)

  /** Artifact 5 at version 2 with three bytes, its empty version 1 and perhaps version 2 stored. */
  const GROWN := SHELF.(artifacts := map[5 := FIVE],
                        versions := map[VersionKey(5, 1) := NO_ROW, VersionKey(5, 2) := ABC])
  const SHRUNK := SHELF.(artifacts := map[5 := FIVE], versions := map[VersionKey(5, 1) := NO_ROW])
  const CROWDED := SHELF.(artifacts := map[5 := FIVE, 6 := SIX],
                          versions := map[VersionKey(5, 1) := NO_ROW, VersionKey(6, 1) := ABC])

  lemma SizeOfAbc()
    ensures ByteSize("abc", None, None) == 3
  {
    Utf8.AsciiExactly("abc");
  }

  lemma GrowCommits()
    ensures UpdateCommit(Scene(1, 1, {1}), ROOMY, 5, 1, ABC) == Commit(GROWN)
  {
    var db := Scene(1, 1, {1});
    assert VersionKey(5, 1) in db.versions && VersionKey(5, 2) !in db.versions;
    var written := Appended(db, 5, 1, ABC);
    assert written.versions == GROWN.versions;
    assert VersionsOf(written.versions, 5) == {1, 2} by {
      assert VersionKey(5, 1) in written.versions && VersionKey(5, 2) in written.versions;
    }
  }

  lemma Grow()
    ensures Update(Scene(1, 1, {1}), ROOMY, 1, 5, "abc", 1, None, None, None) == Commit(GROWN)
  {
    SizeOfAbc();
    NothingStored({1}, 1, 1, 1);
    GrowCommits();
  }

  lemma Shrink()
    ensures AllButVersion(GROWN, 5, 1) == SHRUNK.versions
  {
  }

  lemma Crowd()
    ensures NewArtifactQuota(SHRUNK, ROOMY, 1, 3).None? && PublishCommit(SHRUNK, 1, 6, ABC) == Commit(CROWDED)
  {
    assert Owned(SHRUNK.artifacts, 1) == {5};
    TotalBounded(StoredRows(SHRUNK.artifacts, SHRUNK.versions, 1), 0);
    assert SHRUNK.artifacts[6 := SIX] == CROWDED.artifacts;
    assert SHRUNK.versions[VersionKey(6, 1) := ABC] == CROWDED.versions;
  }

  lemma CrowdedLive()
    ensures Total(Quotas.CurrentRows(CROWDED.artifacts, 1)) == 6
  {
    var none: map<ArtifactId, nat> := map[];
    TotalInsert(none, 5, 3);
    TotalInsert(none[5 := 3], 6, 3);
    assert Quotas.CurrentRows(CROWDED.artifacts, 1) == none[5 := 3][6 := 3];
  }

  /** Published, a prune begun, an update committed, the prune finished, another artifact published. */
  function CrowdingRun(): seq<Event> {
    PublishSteps(0, 1, NO_ROW, 5) + ([BeginPrune(9, 0, 5)] + (UpdateSteps(1, 1, 5, 1, WRITE_ABC)
      + ([FinishDrop(9)] + PublishSteps(2, 1, ABC, 6))))
  }

  const BEGUN := PUBLISHED.(drops := map[9 := Pruning(5, 1, 0)])
  const UPDATED := BEGUN.(db := GROWN, wins := [Win(5, 1)])
  const EMPTIED := UPDATED.(db := SHRUNK, drops := map[])
  const FILLED := EMPTIED.(db := CROWDED, first := map[5 := 1, 6 := 1])

  lemma UpdateLeg()
    ensures Run(BEGUN, ROOMY, UpdateSteps(1, 1, 5, 1, WRITE_ABC)) == UPDATED
  {
    UndisturbedUpdate(BEGUN, ROOMY, 1, 1, 5, 1, WRITE_ABC);
    Grow();
  }

  lemma PruneLeg()
    ensures Run(UPDATED, ROOMY, [FinishDrop(9)]) == EMPTIED
  {
    Finishes(UPDATED, 9);
    Shrink();
    assert UPDATED.drops - {9} == map[];
  }

  lemma PublishLeg()
    ensures Run(EMPTIED, ROOMY, PublishSteps(2, 1, ABC, 6)) == FILLED
  {
    UndisturbedPublish(EMPTIED, ROOMY, 2, 1, ABC, 6);
    Crowd();
    assert map[5 := 1][6 := 1] == map[5 := 1, 6 := 1];
  }

  /** Five legs of a run. */
  lemma Legs(a: Arena, l1: seq<Event>, b: Arena, l2: seq<Event>, c: Arena, l3: seq<Event>, d: Arena, l4: seq<Event>,
             e: Arena, l5: seq<Event>, f: Arena)
    requires Run(a, ROOMY, l1) == b && Run(b, ROOMY, l2) == c && Run(c, ROOMY, l3) == d
    requires Run(d, ROOMY, l4) == e && Run(e, ROOMY, l5) == f
    ensures Run(a, ROOMY, l1 + (l2 + (l3 + (l4 + l5)))) == f
  {
    Then(d, l4, e, l5, f);
    Then(c, l3, d, l4 + l5, f);
    Then(b, l2, c, l3 + (l4 + l5), f);
    Then(a, l1, b, l2 + (l3 + (l4 + l5)), f);
  }

  lemma PruneBegins()
    ensures Run(PUBLISHED, ROOMY, [BeginPrune(9, 0, 5)]) == BEGUN
  {
    OneStep(PUBLISHED, ROOMY, BeginPrune(9, 0, 5));
  }

  lemma CrowdingEnds()
    ensures Run(START, ROOMY, CrowdingRun()) == FILLED
  {
    Published();
    PruneBegins();
    UpdateLeg();
    PruneLeg();
    PublishLeg();
    Legs(START, PublishSteps(0, 1, NO_ROW, 5), PUBLISHED, [BeginPrune(9, 0, 5)], BEGUN,
         UpdateSteps(1, 1, 5, 1, WRITE_ABC), UPDATED, [FinishDrop(9)], EMPTIED, PublishSteps(2, 1, ABC, 6), FILLED);
  }

  /** From an empty store, without any reassignment: a late prune drops the row of a large current version, the
      stored bytes make room for another artifact, and the live bytes pass the cap of 5. */
  lemma LatePruneLetsLiveBytesPassCap()
    ensures var v := Run(START, ROOMY, CrowdingRun());
            v.moved == {} && Total(Quotas.CurrentRows(v.db.artifacts, 1)) == 6 > ROOMY.maxTotalBytes
  {
    CrowdingEnds();
    CrowdedLive();
  }
}
