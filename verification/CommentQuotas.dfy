/** Comment storage per artifact (comments.py): counted in characters, charged in bytes. */
module CommentQuotas {
  import opened Basics
  import opened Schema
  import opened Content
  import opened ContentIntegrity
  import opened Totals
  import ArtifactHistory
  import Retention
  import Utf8

  type Comments = map<CommentId, CommentRow>

  function CommentBytes(comments: Comments, a: ArtifactId): map<CommentId, nat> {
    map m | m in comments && comments[m].artifactId == a :: Utf8.ByteLength(comments[m].body)
  }

  /** Per artifact: the count, and the stored characters, within their caps. */
  ghost predicate CommentsOk(comments: Comments, cfg: Config) {
    && (forall a :: |CommentSizes(comments, a)| <= cfg.maxComments)
    && (forall a :: Total(CommentSizes(comments, a)) <= cfg.maxCommentBytes)
  }

  lemma InsertSizes(comments: Comments, id: CommentId, row: CommentRow, a: ArtifactId)
    requires id !in comments
    ensures CommentSizes(comments[id := row], a) ==
            if a == row.artifactId then CommentSizes(comments, a)[id := |row.body|] else CommentSizes(comments, a)
  {
  }

  lemma InsertWithinQuota(comments: Comments, cfg: Config, id: CommentId, row: CommentRow)
    requires CommentsOk(comments, cfg) && id !in comments
    requires |CommentSizes(comments, row.artifactId)| < cfg.maxComments
    requires Total(CommentSizes(comments, row.artifactId)) + Utf8.ByteLength(row.body) <= cfg.maxCommentBytes
    ensures CommentsOk(comments[id := row], cfg)
  {
    var added := comments[id := row];
    var sizes := CommentSizes(comments, row.artifactId);
    Utf8.LengthBounds(row.body);
    TotalInsert(sizes, id, |row.body|);
    assert |sizes[id := |row.body|]| == |sizes| + 1;
    forall a ensures |CommentSizes(added, a)| <= cfg.maxComments { InsertSizes(comments, id, row, a); }
    forall a ensures Total(CommentSizes(added, a)) <= cfg.maxCommentBytes { InsertSizes(comments, id, row, a); }
  }

  /** Nothing is added and no body changes. */
  ghost predicate KeepsBodies(comments: Comments, comments': Comments) {
    forall m <- comments' ::
      m in comments && comments'[m].artifactId == comments[m].artifactId && comments'[m].body == comments[m].body
  }

  lemma DropWithinQuota(comments: Comments, comments': Comments, cfg: Config)
    requires CommentsOk(comments, cfg) && KeepsBodies(comments, comments')
    ensures CommentsOk(comments', cfg)
  {
    forall a ensures |CommentSizes(comments', a)| <= cfg.maxComments
        && Total(CommentSizes(comments', a)) <= cfg.maxCommentBytes {
      TotalMonotone(CommentSizes(comments', a), CommentSizes(comments, a));
      Retention.SubsetSizeOf(CommentSizes(comments', a).Keys, CommentSizes(comments, a).Keys);
      assert |CommentSizes(comments', a)| == |CommentSizes(comments', a).Keys|;
      assert |CommentSizes(comments, a)| == |CommentSizes(comments, a).Keys|;
    }
  }

  predicate Writes(q: Request) { q.DoComment? || q.DoReply? || q.DoHumanReply? }

  lemma InsertKeeps(db: Db, cfg: Config, id: CommentId, row: CommentRow)
    requires CommentsOk(db.comments, cfg)
    ensures CommentsOk(After(db, InsertComment(db, cfg, id, row)).comments, cfg)
  {
    if InsertComment(db, cfg, id, row).Commit? { InsertWithinQuota(db.comments, cfg, id, row); }
  }

  lemma WriteKeeps(db: Db, cfg: Config, q: Request)
    requires CommentsOk(db.comments, cfg) && Writes(q)
    ensures CommentsOk(After(db, Perform(db, cfg, q)).comments, cfg)
  {
    match q
    case DoComment(u, a, id, body, now) => InsertKeeps(db, cfg, id, CommentRow(a, None, ByUser(u), body, false, now));
    case DoReply(c, root, id, body, now) =>
      if IsRoot(db, root) {
        InsertKeeps(db, cfg, id,
                    CommentRow(db.comments[root].artifactId, Some(root), ByConnection(c), body, false, now));
      }
    case DoHumanReply(u, root, id, body, now) =>
      if IsRoot(db, root) {
        InsertKeeps(db, cfg, id, CommentRow(db.comments[root].artifactId, Some(root), ByUser(u), body, false, now));
      }
  }

  lemma OthersKeepBodies(db: Db, cfg: Config, q: Request)
    requires !Writes(q) && (q.DoResolve? || q.DoToggle? || q.DoDeleteThread? || q.DoDeleteArtifact? || q.DoAdminDelete?)
    ensures KeepsBodies(db.comments, After(db, Perform(db, cfg, q)).comments)
  {
  }

  lemma RestKeepsComments(db: Db, cfg: Config, q: Request)
    requires !Writes(q)
        && !(q.DoResolve? || q.DoToggle? || q.DoDeleteThread? || q.DoDeleteArtifact? || q.DoAdminDelete?)
    ensures After(db, Perform(db, cfg, q)).comments == db.comments
  {
  }

  lemma PerformKeeps(db: Db, cfg: Config, q: Request)
    requires CommentsOk(db.comments, cfg)
    ensures CommentsOk(After(db, Perform(db, cfg, q)).comments, cfg)
  {
    if Writes(q) {
      WriteKeeps(db, cfg, q);
    } else if q.DoResolve? || q.DoToggle? || q.DoDeleteThread? || q.DoDeleteArtifact? || q.DoAdminDelete? {
      OthersKeepBodies(db, cfg, q);
      DropWithinQuota(db.comments, After(db, Perform(db, cfg, q)).comments, cfg);
    } else {
      RestKeepsComments(db, cfg, q);
    }
  }

  lemma {:induction false} TotalScales<K(!new)>(small: map<K, nat>, big: map<K, nat>, factor: nat)
    requires big.Keys == small.Keys
    requires forall k <- small :: big[k] <= factor * small[k]
    ensures Total(big) <= factor * Total(small)
    decreases |small|
  {
    if small != map[] {
      var k :| k in small && Total(small) == small[k] + Total(small - {k});
      assert (small - {k}).Keys == small.Keys - {k} && (big - {k}).Keys == big.Keys - {k};
      TotalScales(small - {k}, big - {k}, factor);
      TotalRemove(big, k);
      Distribute(factor, small[k], Total(small - {k}));
    }
  }

  lemma Distribute(x: nat, y: nat, z: nat)
    ensures x * (y + z) == x * y + x * z
  {
  }

  /** Over any run of atomic requests the comments of an artifact stay within the count cap, their
      characters within the size cap, and therefore their bytes within four times the size cap. */
  lemma {:induction false} CommentStorageBounded(db: Db, cfg: Config, requests: seq<Request>, a: ArtifactId)
    requires CommentsOk(db.comments, cfg)
    ensures var d := ArtifactHistory.PerformAll(db, cfg, requests);
            && |CommentSizes(d.comments, a)| <= cfg.maxComments
            && Total(CommentSizes(d.comments, a)) <= cfg.maxCommentBytes
            && Total(CommentBytes(d.comments, a)) <= 4 * cfg.maxCommentBytes
    decreases |requests|
  {
    if requests == [] {
      forall m | m in CommentSizes(db.comments, a)
          ensures CommentBytes(db.comments, a)[m] <= 4 * CommentSizes(db.comments, a)[m] {
        Utf8.LengthBounds(db.comments[m].body);
      }
      TotalScales(CommentSizes(db.comments, a), CommentBytes(db.comments, a), 4);
    } else {
      PerformKeeps(db, cfg, requests[0]);
      CommentStorageBounded(After(db, Perform(db, cfg, requests[0])), cfg, requests[1..], a);
    }
  }

  /** The byte total equals the character total the quota looks at exactly when every body is ASCII. */
  lemma BytesAreCountedExactly(comments: Comments, a: ArtifactId)
    ensures Total(CommentBytes(comments, a)) == Total(CommentSizes(comments, a))
       <==> forall m <- comments :: comments[m].artifactId == a ==> Ascii(comments[m].body)
  {
    forall m | m in CommentSizes(comments, a)
      ensures CommentSizes(comments, a)[m] <= CommentBytes(comments, a)[m]
      ensures CommentSizes(comments, a)[m] == CommentBytes(comments, a)[m] <==> Ascii(comments[m].body)
    {
      Utf8.LengthBounds(comments[m].body);
      Utf8.AsciiExactly(comments[m].body);
    }
    EqualTotals(CommentSizes(comments, a), CommentBytes(comments, a));
    if CommentSizes(comments, a) == CommentBytes(comments, a) {
      forall m | m in comments && comments[m].artifactId == a ensures Ascii(comments[m].body) {
        assert m in CommentSizes(comments, a);
      }
    }
  }

  /** Entrywise smaller maps have equal sums only when they are equal. */
  lemma {:induction false} EqualTotals<K(!new)>(small: map<K, nat>, big: map<K, nat>)
    requires big.Keys == small.Keys && forall k <- small :: small[k] <= big[k]
    ensures Total(small) == Total(big) <==> small == big
  {
    if small != big {
      var k :| k in small && small[k] != big[k];
      TotalRemove(small, k);
      TotalRemove(big, k);
      TotalMonotone(small - {k}, big - {k});
    }
  }

  // ---- the byte cap itself ----

  lemma InsertBytes(comments: Comments, id: CommentId, row: CommentRow)
    requires id !in comments
    ensures Total(CommentBytes(comments[id := row], row.artifactId))
         == Total(CommentBytes(comments, row.artifactId)) + Utf8.ByteLength(row.body)
  {
    var bytes := CommentBytes(comments, row.artifactId);
    assert CommentBytes(comments[id := row], row.artifactId) == bytes[id := Utf8.ByteLength(row.body)];
    TotalInsert(bytes, id, Utf8.ByteLength(row.body));
  }

  /** A body of `n` one-byte characters. */
  function Filling(n: nat): (body: string)
    ensures |body| == n && Ascii(body)
  {
    seq(n, i => 'a')
  }

  /** Some user may comment on `a`, the count leaves room for one more, and the characters are within the cap. */
  ghost predicate MayComment(db: Db, cfg: Config, u: UserId, a: ArtifactId) {
    && u in db.users && Accessible(db, u, a)
    && |CommentSizes(db.comments, a)| < cfg.maxComments && Total(CommentSizes(db.comments, a)) <= cfg.maxCommentBytes
  }

  /** What the code lets through: the size limit on one comment, then characters stored plus bytes new. */
  lemma LetThrough(db: Db, cfg: Config, u: UserId, a: ArtifactId, id: CommentId, body: string, now: Time)
    requires MayComment(db, cfg, u, a) && id !in db.comments
    ensures CreateComment(db, cfg, u, a, id, body, now).Commit? <==>
              Utf8.ByteLength(body) <= MAX_COMMENT
              && Total(CommentSizes(db.comments, a)) + Utf8.ByteLength(body) <= cfg.maxCommentBytes
    ensures CreateComment(db, cfg, u, a, id, body, now).Commit? ==>
              Total(CommentBytes(CreateComment(db, cfg, u, a, id, body, now).db.comments, a))
              == Total(CommentBytes(db.comments, a)) + Utf8.ByteLength(body)
  {
    InsertBytes(db.comments, id, CommentRow(a, None, ByUser(u), body, false, now));
  }

  /** Bytes are never fewer than characters. */
  lemma SizesWithinBytes(comments: Comments, a: ArtifactId)
    ensures Total(CommentSizes(comments, a)) <= Total(CommentBytes(comments, a))
  {
    forall m | m in CommentSizes(comments, a) ensures CommentSizes(comments, a)[m] <= CommentBytes(comments, a)[m] {
      Utf8.LengthBounds(comments[m].body);
    }
    TotalMonotone(CommentSizes(comments, a), CommentBytes(comments, a));
  }

  /** Every next comment the code accepts leaves the stored bytes within the cap if and only if all stored
      comments are ASCII, or the cap still has room for a comment of the largest size. */
  lemma AcceptedBodiesFitExactly(db: Db, cfg: Config, u: UserId, a: ArtifactId, id: CommentId, now: Time)
    requires MayComment(db, cfg, u, a) && id !in db.comments
    ensures (forall body: string | CreateComment(db, cfg, u, a, id, body, now).Commit? ::
               Total(CommentBytes(CreateComment(db, cfg, u, a, id, body, now).db.comments, a)) <= cfg.maxCommentBytes)
       <==> (forall m <- db.comments :: db.comments[m].artifactId == a ==> Ascii(db.comments[m].body))
            || Total(CommentBytes(db.comments, a)) + MAX_COMMENT <= cfg.maxCommentBytes
  {
    var sizes, bytes := Total(CommentSizes(db.comments, a)), Total(CommentBytes(db.comments, a));
    SizesWithinBytes(db.comments, a);
    BytesAreCountedExactly(db.comments, a);
    var room := cfg.maxCommentBytes - sizes;
    var worst := Filling(if room <= MAX_COMMENT then room else MAX_COMMENT);
    Utf8.AsciiExactly(worst);
    LetThrough(db, cfg, u, a, id, worst, now);
    forall body: string | CreateComment(db, cfg, u, a, id, body, now).Commit?
      ensures Total(CommentBytes(CreateComment(db, cfg, u, a, id, body, now).db.comments, a))
          == bytes + Utf8.ByteLength(body)
              && Utf8.ByteLength(body) <= |worst|
    {
      LetThrough(db, cfg, u, a, id, body, now);
    }
  }

  ghost predicate AllAscii(comments: Comments) {
    forall m <- comments :: Ascii(comments[m].body)
  }

  lemma PerformKeepsAscii(db: Db, cfg: Config, q: Request)
    requires AllAscii(db.comments) && (Writes(q) ==> Ascii(q.body))
    ensures AllAscii(After(db, Perform(db, cfg, q)).comments)
  {
    if !Writes(q) {
      if q.DoResolve? || q.DoToggle? || q.DoDeleteThread? || q.DoDeleteArtifact? || q.DoAdminDelete? {
        OthersKeepBodies(db, cfg, q);
      } else {
        RestKeepsComments(db, cfg, q);
      }
    }
  }

  /** A run that only writes ASCII keeps the stored bytes of every artifact within the cap. */
  lemma {:induction false} AsciiRunsStayWithinCap(db: Db, cfg: Config, requests: seq<Request>, a: ArtifactId)
    requires CommentsOk(db.comments, cfg) && AllAscii(db.comments)
    requires forall q <- requests :: Writes(q) ==> Ascii(q.body)
    ensures Total(CommentBytes(ArtifactHistory.PerformAll(db, cfg, requests).comments, a)) <= cfg.maxCommentBytes
    decreases |requests|
  {
    if requests == [] {
      BytesAreCountedExactly(db.comments, a);
    } else {
      assert requests[0] in requests;
      assert forall q | q in requests[1..] :: q in requests;
      PerformKeeps(db, cfg, requests[0]);
      PerformKeepsAscii(db, cfg, requests[0]);
      AsciiRunsStayWithinCap(After(db, Perform(db, cfg, requests[0])), cfg, requests[1..], a);
    }
  }

  // ---- a run that exceeds it ----

  const SMALL := Config(5, 5, 5, 5, 5, 4)

  /** User 0 owns connection 1, which published artifact 7; nobody has commented. */
  const DESK := EMPTY.(
    users := map[0 := "a@example.org"],
    conns := map[1 := ConnRow(0, None, None, None, None)],
    artifacts := map[7 := ArtifactRow(1, None, Html, None, "", 1, 0)],
    versions := map[VersionKey(7, 1) := VersionRow(None, Html, None, "", 0)])

  const EMOJI := ['\U{1F600}']
  const EURO := ['\U{20AC}']
  const CHAT := [DoComment(0, 7, 1, EMOJI, 0), DoComment(0, 7, 2, EURO, 1)]

  lemma EmojiSizes()
    ensures Utf8.ByteLength(EMOJI) == 4 && Utf8.ByteLength(EURO) == 3
  {
    assert EMOJI[1..] == [] && EURO[1..] == [];
  }

  lemma DeskIsFine()
    ensures ContentOk(DESK) && CommentsOk(DESK.comments, SMALL)
  {
    forall a ensures CommentSizes(DESK.comments, a) == map[] {}
  }

  const FIRST := CommentRow(7, None, ByUser(0), EMOJI, false, 0)
  const SECOND := CommentRow(7, None, ByUser(0), EURO, false, 1)

  lemma FirstIsAccepted()
    ensures Perform(DESK, SMALL, CHAT[0]) == Commit(DESK.(comments := map[1 := FIRST]))
  {
    EmojiSizes();
    assert CommentSizes(DESK.comments, 7) == map[];
  }

  lemma SecondIsAccepted()
    ensures Perform(DESK.(comments := map[1 := FIRST]), SMALL, CHAT[1])
        == Commit(DESK.(comments := map[1 := FIRST, 2 := SECOND]))
  {
    EmojiSizes();
    var none: map<CommentId, nat> := map[];
    TotalInsert(none, 1, 1);
    assert CommentSizes(map[1 := FIRST], 7) == none[1 := 1];
  }

  /** With a cap of 4: on a consistent database, a comment of one four-byte character and then one of one
      three-byte character are both accepted, and 7 bytes are stored. */
  lemma BytesCanExceedCap()
    ensures ContentOk(DESK) && CommentsOk(DESK.comments, SMALL)
    ensures Perform(DESK, SMALL, CHAT[0]).Commit?
    ensures Perform(After(DESK, Perform(DESK, SMALL, CHAT[0])), SMALL, CHAT[1]).Commit?
    ensures Total(CommentBytes(ArtifactHistory.PerformAll(DESK, SMALL, CHAT).comments, 7)) == 7 > SMALL.maxCommentBytes
  {
    DeskIsFine();
    FirstIsAccepted();
    SecondIsAccepted();
    EmojiSizes();
    var none: map<CommentId, CommentRow> := map[];
    assert CommentBytes(none, 7) == map[];
    InsertBytes(none, 1, FIRST);
    InsertBytes(none[1 := FIRST], 2, SECOND);
    assert none[1 := FIRST][2 := SECOND] == map[1 := FIRST, 2 := SECOND];
    TwoRequests(DESK, CHAT[0], CHAT[1]);
  }

  lemma TwoRequests(db: Db, q: Request, p: Request)
    ensures var d := After(db, Perform(db, SMALL, q));
            ArtifactHistory.PerformAll(db, SMALL, [q, p]) == After(d, Perform(d, SMALL, p))
  {
    var d := After(db, Perform(db, SMALL, q));
    assert [q, p][1..] == [p] && [p][1..] == [];
    assert ArtifactHistory.PerformAll(d, SMALL, [p]) == After(d, Perform(d, SMALL, p));
  }

  // ---- the early reject of tools.py ----

  /** Rejecting on the character count alone never refuses what the byte count would accept. */
  lemma EarlyRejectIsSafe(content: string, title: Option<string>, language: Option<string>, cap: nat)
    ensures |content| > cap ==> ByteSize(content, title, language) > cap
  {
    Utf8.LengthBounds(content);
  }

  /** Publishing decides, commits and charges as if the character check were not there. */
  lemma EarlyRejectInvisible(db: Db, cfg: Config, c: ConnId, a: ArtifactId, content: string, format: string,
                             title: Option<string>, language: Option<string>)
    requires ParseFormat(format).Some? && !MetadataTooLong(title, language)
    ensures Publish(db, cfg, c, a, content, format, title, language) ==
            var size := ByteSize(content, title, language);
            if NewArtifactQuota(db, cfg, c, size).Some? then Refuse(QuotaExceeded)
            else PublishCommit(db, c, a, VersionRow(title, ParseFormat(format).value, language, content, size))
  {
    EarlyRejectIsSafe(content, title, language, cfg.maxArtifactBytes);
  }
}
