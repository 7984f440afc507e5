/** Listing many comment threads with one query for all replies (comments.py).

    Query results are sequences in `created_at` order. Comments created at the very same instant
    may come back either way round, here as from the database. */
module CommentThreads {
  import opened Basics
  import opened Schema
  import opened ContentIntegrity

  datatype Comment = Comment(id: CommentId, row: CommentRow)

  /** ORDER BY created_at, which leaves ties in any order. */
  predicate InOrder(rows: seq<Comment>) {
    forall i, j | 0 <= i < j < |rows| :: rows[i].row.createdAt <= rows[j].row.createdAt
  }

  predicate Distinct(rows: seq<Comment>) {
    forall i, j | 0 <= i < j < |rows| :: rows[i] != rows[j]
  }

  predicate IsReplyTo(comments: map<CommentId, CommentRow>, roots: set<CommentId>, m: Comment) {
    m.id in comments && comments[m.id] == m.row && m.row.parentId.Some? && m.row.parentId.value in roots
  }

  /** `rows` answers SELECT ... WHERE parent_id IN roots ORDER BY created_at. */
  ghost predicate Answers(comments: map<CommentId, CommentRow>, roots: set<CommentId>, rows: seq<Comment>) {
    InOrder(rows) && Distinct(rows) && forall m :: m in rows <==> IsReplyTo(comments, roots, m)
  }

  function RepliesOf(rows: seq<Comment>, root: CommentId): seq<Comment> {
    if rows == [] then []
    else
      var last := rows[|rows| - 1];
      RepliesOf(rows[..|rows| - 1], root) + if last.row.parentId == Some(root) then [last] else []
  }

  // ---- authors ----

  /** What the lookup tables know: e-mail by user, label by connection. */
  datatype Names = Names(emails: map<UserId, string>, labels: map<ConnId, Option<string>>)

  datatype AuthorName = Named(name: string) | UnknownUser | Unlabelled(conn: ConnId)

  datatype Entry = Entry(id: CommentId, body: string, author: AuthorName, human: bool, createdAt: Time)

  datatype Thread = Thread(id: CommentId, resolved: bool, comments: seq<Entry>)

  /** _author_names: the names of the authors of `rows` and of nobody else. */
  function AuthorNames(rows: seq<Comment>, known: Names): Names {
    var users := set m | m in rows && m.row.author.ByUser? :: m.row.author.user;
    var conns := set m | m in rows && m.row.author.ByConnection? :: m.row.author.conn;
    Names(map u | u in users && u in known.emails :: known.emails[u],
          map c | c in conns && c in known.labels :: known.labels[c])
  }

  function Serialize(m: Comment, names: Names): Entry {
    match m.row.author
    case ByUser(u) =>
      var author := if u in names.emails && names.emails[u] != "" then Named(names.emails[u]) else UnknownUser;
      Entry(m.id, m.row.body, author, true, m.row.createdAt)
    case ByConnection(c) =>
      var author :=
        if c in names.labels && names.labels[c].Some? && names.labels[c].value != "" then Named(names.labels[c].value)
        else Unlabelled(c);
      Entry(m.id, m.row.body, author, false, m.row.createdAt)
  }

  function SerializeAll(rows: seq<Comment>, names: Names): seq<Entry> {
    seq(|rows|, i requires 0 <= i < |rows| => Serialize(rows[i], names))
  }

  /** _serialize_thread: one root, its own query for replies, its own author lookup. */
  function SerializeThread(root: Comment, replies: seq<Comment>, known: Names): Thread {
    var rows := [root] + replies;
    Thread(root.id, root.row.resolved, SerializeAll(rows, AuthorNames(rows, known)))
  }

  // ---- the grouping pass ----

  function GroupOf(groups: map<CommentId, seq<Comment>>, root: CommentId): seq<Comment> {
    if root in groups then groups[root] else []
  }

  /** `replies_by_root.setdefault(reply.parent_id, []).append(reply)` over all replies. */
  method GroupReplies(rows: seq<Comment>) returns (groups: map<CommentId, seq<Comment>>)
    requires forall m <- rows :: m.row.parentId.Some?
    ensures forall root :: GroupOf(groups, root) == RepliesOf(rows, root)
  {
    groups := map[];
    for i := 0 to |rows|
      invariant forall root :: GroupOf(groups, root) == RepliesOf(rows[..i], root)
    {
      var reply := rows[i];
      assert rows[..i + 1][..i] == rows[..i];
      groups := groups[reply.row.parentId.value := GroupOf(groups, reply.row.parentId.value) + [reply]];
    }
    assert rows[..|rows|] == rows;
  }

  /** _serialize_threads: all replies grouped in one pass, all authors looked up together. */
  method SerializeThreads(roots: seq<Comment>, replies: seq<Comment>, known: Names) returns (threads: seq<Thread>)
    requires forall m <- replies :: m.row.parentId.Some?
    ensures |threads| == |roots|
    ensures forall i | 0 <= i < |roots| ::
        threads[i] == SerializeThread(roots[i], RepliesOf(replies, roots[i].id), known)
  {
    var groups := GroupReplies(replies);
    var names := AuthorNames(roots + replies, known);
    threads := [];
    for i := 0 to |roots|
      invariant |threads| == i
      invariant forall j | 0 <= j < i :: threads[j] == SerializeThread(roots[j], RepliesOf(replies, roots[j].id), known)
    {
      var rows := [roots[i]] + GroupOf(groups, roots[i].id);
      RepliesAreRows(replies, roots[i].id);
      SameNames(rows, roots + replies, known);
      threads := threads + [Thread(roots[i].id, roots[i].row.resolved, SerializeAll(rows, names))];
    }
  }

  lemma {:induction false} RepliesAreRows(rows: seq<Comment>, root: CommentId)
    ensures forall m :: m in RepliesOf(rows, root) <==> m in rows && m.row.parentId == Some(root)
  {
    if rows != [] {
      RepliesAreRows(rows[..|rows| - 1], root);
      assert rows == rows[..|rows| - 1] + [rows[|rows| - 1]];
    }
  }

  /** Looking up more authors than needed does not change how a comment reads. */
  lemma SameNames(rows: seq<Comment>, more: seq<Comment>, known: Names)
    requires forall m <- rows :: m in more
    ensures SerializeAll(rows, AuthorNames(more, known)) == SerializeAll(rows, AuthorNames(rows, known))
  {
    forall i | 0 <= i < |rows|
      ensures Serialize(rows[i], AuthorNames(more, known)) == Serialize(rows[i], AuthorNames(rows, known))
    {
      assert rows[i] in rows && rows[i] in more;
    }
  }

  // ---- the batch equals the per-root version ----

  lemma {:induction false} RepliesInOrder(rows: seq<Comment>, root: CommentId)
    requires InOrder(rows) && Distinct(rows)
    ensures InOrder(RepliesOf(rows, root)) && Distinct(RepliesOf(rows, root))
  {
    if rows != [] {
      var front, last := rows[..|rows| - 1], rows[|rows| - 1];
      RepliesInOrder(front, root);
      RepliesAreRows(front, root);
      forall m | m in RepliesOf(front, root) ensures m.row.createdAt <= last.row.createdAt && m != last {
        assert m in front;
      }
    }
  }

  /** One query for all replies, grouped in one pass, gives every root an answer to its own query: for
      every set of listed roots and every root among them, ties or no ties. */
  lemma BatchAnswersPerRoot(comments: map<CommentId, CommentRow>, roots: set<CommentId>, all: seq<Comment>,
                            root: CommentId)
    requires Answers(comments, roots, all) && root in roots
    ensures Answers(comments, {root}, RepliesOf(all, root))
  {
    RepliesInOrder(all, root);
    RepliesAreRows(all, root);
  }

  /** No two replies of this thread were created at the same instant. */
  predicate NoTies(rows: seq<Comment>) {
    forall i, j | 0 <= i < j < |rows| :: rows[i].row.createdAt != rows[j].row.createdAt
  }

  lemma TailMembers(a: seq<Comment>, m: Comment)
    requires Distinct(a) && a != []
    ensures m in a[1..] <==> m in a && m != a[0]
  {
    if m in a[1..] {
      var i :| 0 <= i < |a| - 1 && a[1..][i] == m;
      assert a[i + 1] == m;
    }
  }

  lemma SameHead(a: seq<Comment>, b: seq<Comment>)
    requires InOrder(a) && InOrder(b) && NoTies(a) && a != [] && b != [] && forall m :: m in a <==> m in b
    ensures a[0] == b[0]
  {
    assert a[0] in b && b[0] in a;
    var i :| 0 <= i < |a| && a[i] == b[0];
    var j :| 0 <= j < |b| && b[j] == a[0];
    assert a[0].row.createdAt <= a[i].row.createdAt && b[0].row.createdAt <= b[j].row.createdAt;
  }

  lemma EmptyTogether(a: seq<Comment>, b: seq<Comment>)
    requires forall m :: m in a <==> m in b
    ensures a == [] ==> b == []
  {
    if b != [] { assert b[0] in b; }
  }

  /** An answer without ties is the only one. */
  lemma {:induction false} OneAnswer(a: seq<Comment>, b: seq<Comment>)
    requires InOrder(a) && InOrder(b) && Distinct(a) && Distinct(b) && NoTies(a) && forall m :: m in a <==> m in b
    ensures a == b
  {
    EmptyTogether(a, b);
    EmptyTogether(b, a);
    if a != [] {
      SameHead(a, b);
      forall m ensures m in a[1..] <==> m in b[1..] {
        TailMembers(a, m);
        TailMembers(b, m);
      }
      OneAnswer(a[1..], b[1..]);
      assert a == [a[0]] + a[1..] && b == [b[0]] + b[1..];
    }
  }

  /** Rows with two neighbours exchanged. */
  function Swapped(rows: seq<Comment>, i: nat): seq<Comment>
    requires i + 1 < |rows|
  {
    rows[i := rows[i + 1]][i + 1 := rows[i]]
  }

  /** Two neighbours that tie may come back either way round. */
  lemma SwappedAnswers(comments: map<CommentId, CommentRow>, roots: set<CommentId>, rows: seq<Comment>, i: nat)
    requires Answers(comments, roots, rows) && i + 1 < |rows| && rows[i].row.createdAt == rows[i + 1].row.createdAt
    ensures Answers(comments, roots, Swapped(rows, i)) && Swapped(rows, i) != rows
  {
    var other := Swapped(rows, i);
    forall m ensures m in other <==> m in rows {
      if m in rows {
        var k :| 0 <= k < |rows| && rows[k] == m;
        assert other[if k == i then i + 1 else if k == i + 1 then i else k] == m;
      }
    }
    assert other[i] != rows[i];
  }

  /** Ties in an ordered answer have neighbours that tie. */
  lemma TieOfNeighbours(rows: seq<Comment>) returns (i: nat)
    requires InOrder(rows) && !NoTies(rows)
    ensures i + 1 < |rows| && rows[i].row.createdAt == rows[i + 1].row.createdAt
  {
    var j, k :| 0 <= j < k < |rows| && rows[j].row.createdAt == rows[k].row.createdAt;
    assert rows[j].row.createdAt <= rows[j + 1].row.createdAt <= rows[k].row.createdAt;
    i := j;
  }

  /** The batch shows a thread exactly as its own query would, whatever that query returns, if and only
      if no two replies in that one thread share an instant. Ties elsewhere do not matter. */
  lemma BatchEqualsPerRoot(comments: map<CommentId, CommentRow>, roots: set<CommentId>, all: seq<Comment>,
                           root: CommentId)
    requires Answers(comments, roots, all) && root in roots
    ensures (forall mine: seq<Comment> | Answers(comments, {root}, mine) :: RepliesOf(all, root) == mine)
       <==> NoTies(RepliesOf(all, root))
  {
    var batched := RepliesOf(all, root);
    BatchAnswersPerRoot(comments, roots, all, root);
    if NoTies(batched) {
      forall mine: seq<Comment> | Answers(comments, {root}, mine) ensures batched == mine { OneAnswer(batched, mine); }
    } else {
      var i := TieOfNeighbours(batched);
      SwappedAnswers(comments, {root}, batched, i);
    }
  }

  // ---- nothing is lost, nothing is listed twice ----

  /** The root of the thread a comment belongs to. */
  function Home(comments: map<CommentId, CommentRow>, m: CommentId): CommentId
    requires m in comments
  {
    if comments[m].parentId.Some? then comments[m].parentId.value else m
  }

  predicate IsRootOn(comments: map<CommentId, CommentRow>, a: ArtifactId, m: CommentId) {
    m in comments && comments[m].artifactId == a && comments[m].parentId.None?
  }

  /** When all roots of an artifact are listed, each of its comments appears in the thread of its home
      root and in no other, and no comment of another artifact appears anywhere. This is where the
      invariant on reply parents is needed: a reply to a reply would be in no thread. */
  lemma ListingIsPartition(comments: map<CommentId, CommentRow>, a: ArtifactId, roots: set<CommentId>,
                           all: seq<Comment>, m: CommentId)
    requires ThreadsOk(comments) && Answers(comments, roots, all) && m in comments
    requires forall r :: r in roots <==> IsRootOn(comments, a, r)
    ensures var it := Comment(m, comments[m]);
            && (comments[m].artifactId == a ==>
                  && Home(comments, m) in roots
                  && forall r <- roots :: (r == m || it in RepliesOf(all, r)) <==> r == Home(comments, m))
            && (comments[m].artifactId != a ==> forall r <- roots :: r != m && it !in RepliesOf(all, r))
  {
    forall r | r in roots
      ensures Comment(m, comments[m]) in RepliesOf(all, r) <==> comments[m].parentId == Some(r)
    {
      RepliesAreRows(all, r);
    }
  }

  // ---- what is shown ----

  /** The name a person gave: not missing, not empty. */
  predicate Given(name: Option<string>) { name.Some? && name.value != "" }

  function KnownEmail(known: Names, u: UserId): Option<string> {
    if u in known.emails then Some(known.emails[u]) else None
  }

  function KnownLabel(known: Names, c: ConnId): Option<string> {
    if c in known.labels then known.labels[c] else None
  }

  /** Every comment of a thread is shown, the root first and its replies in their order, each with its own words, under
      its own author, and marked as a person's exactly when a person wrote it. */
  lemma ThreadShowsEverything(root: Comment, replies: seq<Comment>, known: Names, i: nat)
    requires i <= |replies|
    ensures var t := SerializeThread(root, replies, known);
            var m := if i == 0 then root else replies[i - 1];
            && t.id == root.id && t.resolved == root.row.resolved && |t.comments| == 1 + |replies|
            && t.comments[i].id == m.id && t.comments[i].body == m.row.body
            && t.comments[i].createdAt == m.row.createdAt
            && (t.comments[i].human <==> m.row.author.ByUser?)
            && t.comments[i].author == match m.row.author {
                 case ByUser(u) =>
                   if Given(KnownEmail(known, u)) then Named(KnownEmail(known, u).value) else UnknownUser
                 case ByConnection(c) =>
                   if Given(KnownLabel(known, c)) then Named(KnownLabel(known, c).value) else Unlabelled(c)
               }
  {
    var rows := [root] + replies;
    var m := rows[i];
    assert m in rows;
  }
}
