/** Runs of interleaved comment writes that meet the bound of CommentRaces, for every number of writers. */
module CommentWitness {
  import opened Basics
  import opened Schema
  import opened Content
  import opened Totals
  import opened CommentQuotas
  import opened CommentRaces
  import Utf8

  /** One comment per artifact, of the largest size. */
  const ONE_COMMENT := Config(5, 5, 5, 5, 1, MAX_COMMENT)

  const LONG_ROW := CommentRow(7, None, ByUser(0), Filling(MAX_COMMENT), false, 0)

  function LongComment(id: CommentId): Request { DoComment(0, 7, id, Filling(MAX_COMMENT), 0) }

  /** The comments 0..n, all alike. */
  function Written(n: nat, row: CommentRow): Comments {
    if n == 0 then map[] else Written(n - 1, row)[n - 1 := row]
  }

  /** The writers n..k, past their check. */
  function Writers(n: nat, k: nat, row: CommentRow): Pcs {
    if n >= k then map[] else Writers(n, k - 1, row)[k - 1 := Write(k - 1, row)]
  }

  lemma {:induction false} WrittenAre(n: nat, row: CommentRow, i: CommentId)
    ensures i in Written(n, row) <==> i < n
  {
    if n > 0 { WrittenAre(n - 1, row, i); }
  }

  lemma {:induction false} WritersAre(n: nat, k: nat, row: CommentRow, r: RequestId)
    ensures r in Writers(n, k, row) <==> n <= r < k
    ensures r in Writers(n, k, row) ==> Writers(n, k, row)[r] == Write(r, row)
  {
    if n < k { WritersAre(n, k - 1, row, r); }
  }

  /** The first writer leaves: the others remain. */
  lemma FirstLeaves(n: nat, k: nat, row: CommentRow)
    requires n < k
    ensures n in Writers(n, k, row) && Writers(n, k, row)[n] == Write(n, row)
    ensures Writers(n, k, row) - {n} == Writers(n + 1, k, row)
  {
    var left, rest := Writers(n, k, row) - {n}, Writers(n + 1, k, row);
    WritersAre(n, k, row, n);
    forall r: RequestId ensures (r in left <==> r in rest) && (r in left ==> left[r] == rest[r]) {
      WritersAre(n, k, row, r);
      WritersAre(n + 1, k, row, r);
    }
  }

  lemma OneMorePending(pcs: Pcs, r: RequestId, x: Write)
    requires r !in pcs
    ensures |Pending(pcs[r := x], x.row.artifactId)| == |Pending(pcs, x.row.artifactId)| + 1
  {
    PendingAdd(pcs, r, x, x.row.artifactId);
    assert r !in Pending(pcs, x.row.artifactId);
  }

  lemma NonePending(a: ArtifactId)
    ensures |Pending(map[], a)| == 0
  {
    assert Pending(map[], a) == map[];
  }

  lemma {:induction false} WritersCounted(n: nat, k: nat, row: CommentRow)
    requires n <= k
    ensures |Pending(Writers(n, k, row), row.artifactId)| == k - n
    decreases k
  {
    if n == k {
      NonePending(row.artifactId);
    } else {
      WritersCounted(n, k - 1, row);
      WritersAre(n, k - 1, row, k - 1);
      OneMorePending(Writers(n, k - 1, row), k - 1, Write(k - 1, row));
    }
  }

  lemma {:induction false} WrittenCounted(n: nat, row: CommentRow)
    ensures |CommentSizes(Written(n, row), row.artifactId)| == n
    ensures Total(CommentSizes(Written(n, row), row.artifactId)) == Times(n + 1, |row.body|)
  {
    if n == 0 {
      assert CommentSizes(Written(n, row), row.artifactId) == map[];
    } else {
      WrittenCounted(n - 1, row);
      WrittenAre(n - 1, row, n - 1);
      OneMoreStored(Written(n - 1, row), n - 1, row);
      TimesStep(n, |row.body|);
    }
  }

  lemma TimesStep(n: nat, bytes: nat)
    requires n > 0
    ensures Times(n + 1, bytes) == Times(n, bytes) + bytes
  {
    CommentQuotas.Distribute(bytes, n - 1, 1);
  }

  lemma OneMoreStored(comments: Comments, id: CommentId, row: CommentRow)
    requires id !in comments
    ensures var before := CommentSizes(comments, row.artifactId);
            var after := CommentSizes(comments[id := row], row.artifactId);
            |after| == |before| + 1 && Total(after) == Total(before) + |row.body|
  {
    var sizes := CommentSizes(comments, row.artifactId);
    InsertSizes(comments, id, row, row.artifactId);
    TotalInsert(sizes, id, |row.body|);
    assert |sizes[id := |row.body|]| == |sizes| + 1;
  }

  // ---- the run ----

  /** The desk with the comments 0..n on it, and the writers n..k past their check. */
  function Desk(n: nat, k: nat): Room {
    Room(DESK.(comments := Written(n, LONG_ROW)), Writers(n, k, LONG_ROW))
  }

  /** First every writer checks, then every writer inserts. */
  function Crowd(k: nat): seq<Event> {
    seq(2 * k, i requires 0 <= i < 2 * k => if i < k then Check(i, LongComment(i)) else Insert(i - k))
  }

  /** Where the run stands before its event `i`. */
  function DeskAt(k: nat, i: nat): Room {
    if i <= k then Desk(0, i) else Desk(i - k, k)
  }

  lemma LongIsAccepted(id: CommentId)
    ensures Perform(DESK, ONE_COMMENT, LongComment(id)).Commit?
    ensures Prepared(DESK, LongComment(id)) == Write(id, LONG_ROW)
  {
    Utf8.AsciiExactly(Filling(MAX_COMMENT));
    assert CommentSizes(DESK.comments, 7) == map[];
  }

  lemma CheckOnDesk(k: nat)
    ensures Next(Desk(0, k), ONE_COMMENT, Check(k, LongComment(k))) == Desk(0, k + 1)
  {
    LongIsAccepted(k);
    WritersAre(0, k, LONG_ROW, k);
    assert Desk(0, k).db == DESK;
  }

  lemma InsertOnDesk(n: nat, k: nat)
    requires n < k
    ensures Next(Desk(n, k), ONE_COMMENT, Insert(n)) == Desk(n + 1, k)
  {
    FirstLeaves(n, k, LONG_ROW);
    WrittenAre(n, LONG_ROW, n);
    var d := Desk(n, k).db;
    assert Insertable(d, Write(n, LONG_ROW));
    assert d.(comments := d.comments[n := LONG_ROW]) == DESK.(comments := Written(n + 1, LONG_ROW));
  }

  lemma DeskFollows(k: nat, i: nat)
    requires i < 2 * k
    ensures Next(DeskAt(k, i), ONE_COMMENT, Crowd(k)[i]) == DeskAt(k, i + 1)
  {
    if i < k { CheckOnDesk(i); } else { InsertOnDesk(i - k, k); }
  }

  lemma CrowdOnDesk(k: nat, i: nat)
    requires i <= 2 * k
    ensures |Pending(DeskAt(k, i).pcs, 7)| <= k
  {
    if i <= k { WritersCounted(0, i, LONG_ROW); } else { WritersCounted(i - k, k, LONG_ROW); }
  }

  lemma CrowdRuns(k: nat, states: seq<Room>)
    requires |states| == 2 * k + 1 && forall i | 0 <= i <= 2 * k :: states[i] == DeskAt(k, i)
    ensures Run(states[0], ONE_COMMENT, Crowd(k)) == states[2 * k] && AtMost(states[0], ONE_COMMENT, Crowd(k), 7, k)
  {
    forall i | 0 <= i < 2 * k ensures Next(states[i], ONE_COMMENT, Crowd(k)[i]) == states[i + 1] { DeskFollows(k, i); }
    forall i | 0 <= i <= 2 * k ensures |Pending(states[i].pcs, 7)| <= k { CrowdOnDesk(k, i); }
    RunThrough(ONE_COMMENT, Crowd(k), states, 7, k);
  }

  lemma DeskCounted(k: nat)
    requires k > 0
    ensures var comments := DeskAt(k, 2 * k).db.comments;
            && |CommentSizes(comments, 7)| == ONE_COMMENT.maxComments + k - 1
            && Total(CommentSizes(comments, 7)) == ONE_COMMENT.maxCommentBytes + (k - 1) * MAX_COMMENT
  {
    WrittenCounted(k, LONG_ROW);
    TimesStep(k, MAX_COMMENT);
  }

  lemma DeskIsFree()
    ensures CommentsOk(DESK.comments, ONE_COMMENT)
  {
    forall a ensures CommentSizes(DESK.comments, a) == map[] {}
  }

  /** For every number of writers the bound is met, in count and in characters at once: `k` writers pass their
      check before any of them inserts, under caps that one comment fills. */
  lemma WritersMeetTheBound(k: nat, start: Room)
    requires k > 0 && start == Room(DESK, map[])
    ensures CommentsOk(start.db.comments, ONE_COMMENT) && AtMost(start, ONE_COMMENT, Crowd(k), 7, k)
    ensures var d := Run(start, ONE_COMMENT, Crowd(k)).db;
            && |CommentSizes(d.comments, 7)| == ONE_COMMENT.maxComments + k - 1
            && Total(CommentSizes(d.comments, 7)) == ONE_COMMENT.maxCommentBytes + (k - 1) * MAX_COMMENT
  {
    DeskIsFree();
    var states := seq(2 * k + 1, i requires 0 <= i => DeskAt(k, i));
    assert states[0] == start;
    CrowdRuns(k, states);
    DeskCounted(k);
  }
}
