/** Comment writes with their checks and their insert as separate steps. They take no lock, so several may
    be past their check at once (comments.py). */
module CommentRaces {
  import opened Basics
  import opened Schema
  import opened Content
  import opened Totals
  import opened CommentQuotas
  import Retention
  import Utf8

  type RequestId = nat

  /** A comment about to be inserted, with its drawn key. */
  datatype Write = Write(id: CommentId, row: CommentRow)

  type Pcs = map<RequestId, Write>

  datatype Room = Room(db: Db, pcs: Pcs)

  datatype Event =
    | Check(r: RequestId, q: Request)
    | Insert(r: RequestId)
    | Abandon(r: RequestId)
    | Other(q: Request)

  /** What a request that passed all its checks will insert. */
  function Prepared(db: Db, q: Request): Write
    requires Writes(q) && (q.DoComment? || IsRoot(db, q.root))
  {
    match q
    case DoComment(u, a, id, body, now) => Write(id, CommentRow(a, None, ByUser(u), body, false, now))
    case DoReply(c, root, id, body, now) =>
      Write(id, CommentRow(db.comments[root].artifactId, Some(root), ByConnection(c), body, false, now))
    case DoHumanReply(u, root, id, body, now) =>
      Write(id, CommentRow(db.comments[root].artifactId, Some(root), ByUser(u), body, false, now))
  }

  lemma PassedMeansPrepared(db: Db, cfg: Config, q: Request)
    requires Writes(q) && Perform(db, cfg, q).Commit?
    ensures q.DoComment? || IsRoot(db, q.root)
    ensures var x := Prepared(db, q);
            && Perform(db, cfg, q) == InsertComment(db, cfg, x.id, x.row)
            && Utf8.ByteLength(x.row.body) <= MAX_COMMENT && CommentQuota(db, cfg, x.row.artifactId, x.row.body).None?
  {
  }

  ghost function StepCheck(w: Room, cfg: Config, r: RequestId, q: Request): Room {
    if !Writes(q) || r in w.pcs || Perform(w.db, cfg, q).Refuse? then w
    else
      PassedMeansPrepared(w.db, cfg, q);
      w.(pcs := w.pcs[r := Prepared(w.db, q)])
  }

  /** The constraints the INSERT still meets when it runs. */
  predicate Insertable(db: Db, x: Write) {
    && x.id !in db.comments && x.row.artifactId in db.artifacts
    && (x.row.parentId.Some? ==> x.row.parentId.value in db.comments)
    && AuthorExists(x.row.author, db.conns, db.users)
  }

  function StepInsert(w: Room, r: RequestId): Room
    requires r in w.pcs
  {
    var x := w.pcs[r];
    var done := w.(pcs := w.pcs - {r});
    if Insertable(w.db, x) then done.(db := w.db.(comments := w.db.comments[x.id := x.row])) else done
  }

  ghost function Next(w: Room, cfg: Config, e: Event): Room {
    match e
    case Check(r, q) => StepCheck(w, cfg, r, q)
    case Insert(r) => if r in w.pcs then StepInsert(w, r) else w
    case Abandon(r) => w.(pcs := w.pcs - {r})
    case Other(q) => if Writes(q) then w else w.(db := After(w.db, Perform(w.db, cfg, q)))
  }

  ghost function Run(w: Room, cfg: Config, events: seq<Event>): Room
    decreases |events|
  {
    if events == [] then w else Run(Next(w, cfg, events[0]), cfg, events[1..])
  }

  // ---- the bound ----

  /** The bytes of the comments on `a` that are past their check and not yet inserted. */
  function Pending(pcs: Pcs, a: ArtifactId): map<RequestId, nat> {
    map r | r in pcs && pcs[r].row.artifactId == a :: Utf8.ByteLength(pcs[r].row.body)
  }

  /** Stored and pending together exceed neither cap by more than `k - 1` further comments. */
  ghost predicate Bounded(w: Room, cfg: Config, a: ArtifactId, k: nat) {
    && |CommentSizes(w.db.comments, a)| + |Pending(w.pcs, a)| < cfg.maxComments + k
    && Total(CommentSizes(w.db.comments, a)) + Total(Pending(w.pcs, a)) <= cfg.maxCommentBytes + Times(k, MAX_COMMENT)
  }

  /** `(k - 1) * bytes` */
  function Times(k: nat, bytes: nat): nat {
    if k == 0 then 0 else (k - 1) * bytes
  }

  ghost predicate SmallWrites(pcs: Pcs) {
    forall r <- pcs :: Utf8.ByteLength(pcs[r].row.body) <= MAX_COMMENT
  }

  lemma PendingAdd(pcs: Pcs, r: RequestId, x: Write, a: ArtifactId)
    requires r !in pcs
    ensures Pending(pcs[r := x], a) ==
            if x.row.artifactId == a then Pending(pcs, a)[r := Utf8.ByteLength(x.row.body)] else Pending(pcs, a)
  {
  }

  lemma PendingRemove(pcs: Pcs, r: RequestId, a: ArtifactId)
    requires r in pcs
    ensures Pending(pcs - {r}, a) == Pending(pcs, a) - {r}
    ensures pcs[r].row.artifactId != a ==> Pending(pcs - {r}, a) == Pending(pcs, a)
    ensures pcs[r].row.artifactId == a ==>
              && |Pending(pcs - {r}, a)| == |Pending(pcs, a)| - 1
              && Total(Pending(pcs, a)) == Utf8.ByteLength(pcs[r].row.body) + Total(Pending(pcs - {r}, a))
  {
    if pcs[r].row.artifactId == a {
      TotalRemove(Pending(pcs, a), r);
      assert (Pending(pcs, a) - {r}).Keys == Pending(pcs, a).Keys - {r};
    } else {
      assert r !in Pending(pcs, a);
    }
  }

  /** A check changes nothing, or lets one comment through that fits the quota as it stands. */
  lemma CheckOutcome(w: Room, cfg: Config, r: RequestId, q: Request) returns (x: Option<Write>)
    ensures x.None? ==> StepCheck(w, cfg, r, q) == w
    ensures x.Some? ==>
              && r !in w.pcs && StepCheck(w, cfg, r, q) == w.(pcs := w.pcs[r := x.value])
              && Utf8.ByteLength(x.value.row.body) <= MAX_COMMENT
              && CommentQuota(w.db, cfg, x.value.row.artifactId, x.value.row.body).None?
  {
    if Writes(q) && r !in w.pcs && Perform(w.db, cfg, q).Commit? {
      PassedMeansPrepared(w.db, cfg, q);
      x := Some(Prepared(w.db, q));
    } else {
      x := None;
    }
  }

  lemma CheckKeepsBound(w: Room, cfg: Config, r: RequestId, q: Request, a: ArtifactId, k: nat)
    requires Bounded(w, cfg, a, k) && SmallWrites(w.pcs)
    requires |Pending(StepCheck(w, cfg, r, q).pcs, a)| <= k
    ensures Bounded(StepCheck(w, cfg, r, q), cfg, a, k) && SmallWrites(StepCheck(w, cfg, r, q).pcs)
  {
    var x := CheckOutcome(w, cfg, r, q);
    if x.Some? {
      PendingAdd(w.pcs, r, x.value, a);
      if x.value.row.artifactId == a { CheckedHere(w, cfg, r, x.value, a, k); }
    }
  }

  /** Whoever passes the check fits on its own; the others past theirs are at most `k - 1`. */
  lemma CheckedHere(w: Room, cfg: Config, r: RequestId, x: Write, a: ArtifactId, k: nat)
    requires SmallWrites(w.pcs) && r !in w.pcs && x.row.artifactId == a && CommentQuota(w.db, cfg, a, x.row.body).None?
    requires Utf8.ByteLength(x.row.body) <= MAX_COMMENT && |Pending(w.pcs[r := x], a)| <= k
    ensures Bounded(w.(pcs := w.pcs[r := x]), cfg, a, k)
  {
    var others, all := Pending(w.pcs, a), Pending(w.pcs[r := x], a);
    PendingAdd(w.pcs, r, x, a);
    TotalInsert(others, r, Utf8.ByteLength(x.row.body));
    assert |all| == |others| + 1;
    TotalBounded(others, MAX_COMMENT);
    Scaled(|others|, k - 1, MAX_COMMENT);
  }

  lemma Scaled(n: nat, m: nat, bytes: nat)
    requires n <= m
    ensures n * bytes <= m * bytes
  {
  }

  lemma InsertKeepsBound(w: Room, cfg: Config, r: RequestId, a: ArtifactId, k: nat)
    requires Bounded(w, cfg, a, k) && r in w.pcs
    ensures Bounded(StepInsert(w, r), cfg, a, k)
  {
    var x := w.pcs[r];
    PendingRemove(w.pcs, r, a);
    if Insertable(w.db, x) {
      InsertSizes(w.db.comments, x.id, x.row, a);
      if x.row.artifactId == a {
        var sizes := CommentSizes(w.db.comments, a);
        TotalInsert(sizes, x.id, |x.row.body|);
        assert |sizes[x.id := |x.row.body|]| == |sizes| + 1;
        Utf8.LengthBounds(x.row.body);
      }
    }
  }

  lemma FewerKeepsBound(w: Room, db: Db, cfg: Config, a: ArtifactId, k: nat)
    requires Bounded(w, cfg, a, k) && KeepsBodies(w.db.comments, db.comments)
    ensures Bounded(w.(db := db), cfg, a, k)
  {
    var before, after := CommentSizes(w.db.comments, a), CommentSizes(db.comments, a);
    TotalMonotone(after, before);
    Retention.SubsetSizeOf(after.Keys, before.Keys);
    assert |after| == |after.Keys| && |before| == |before.Keys|;
  }

  lemma AbandonKeepsBound(w: Room, cfg: Config, r: RequestId, a: ArtifactId, k: nat)
    requires Bounded(w, cfg, a, k)
    ensures Bounded(w.(pcs := w.pcs - {r}), cfg, a, k)
  {
    if r in w.pcs { PendingRemove(w.pcs, r, a); } else { assert w.pcs - {r} == w.pcs; }
  }

  lemma OtherKeepsBound(w: Room, cfg: Config, q: Request, a: ArtifactId, k: nat)
    requires Bounded(w, cfg, a, k) && !Writes(q)
    ensures Bounded(w.(db := After(w.db, Perform(w.db, cfg, q))), cfg, a, k)
  {
    NonWritesKeepBodies(w.db, cfg, q);
    FewerKeepsBound(w, After(w.db, Perform(w.db, cfg, q)), cfg, a, k);
  }

  lemma NextKeepsBound(w: Room, cfg: Config, e: Event, a: ArtifactId, k: nat)
    requires Bounded(w, cfg, a, k) && SmallWrites(w.pcs) && |Pending(Next(w, cfg, e).pcs, a)| <= k
    ensures Bounded(Next(w, cfg, e), cfg, a, k) && SmallWrites(Next(w, cfg, e).pcs)
  {
    match e
    case Check(r, q) => CheckKeepsBound(w, cfg, r, q, a, k);
    case Insert(r) => if r in w.pcs { InsertKeepsBound(w, cfg, r, a, k); }
    case Abandon(r) => AbandonKeepsBound(w, cfg, r, a, k);
    case Other(q) => if !Writes(q) { OtherKeepsBound(w, cfg, q, a, k); }
  }

  lemma NonWritesKeepBodies(db: Db, cfg: Config, q: Request)
    requires !Writes(q)
    ensures KeepsBodies(db.comments, After(db, Perform(db, cfg, q)).comments)
  {
    if q.DoResolve? || q.DoToggle? || q.DoDeleteThread? || q.DoDeleteArtifact? || q.DoAdminDelete? {
      OthersKeepBodies(db, cfg, q);
    } else {
      RestKeepsComments(db, cfg, q);
    }
  }

  /** At no moment are more than `k` comments on `a` past their check and not yet inserted. */
  ghost predicate AtMost(w: Room, cfg: Config, events: seq<Event>, a: ArtifactId, k: nat)
    decreases |events|
  {
    && |Pending(w.pcs, a)| <= k
    && (events != [] ==> AtMost(Next(w, cfg, events[0]), cfg, events[1..], a, k))
  }

  lemma {:induction false} RunKeepsBound(w: Room, cfg: Config, events: seq<Event>, a: ArtifactId, k: nat)
    requires Bounded(w, cfg, a, k) && SmallWrites(w.pcs) && AtMost(w, cfg, events, a, k)
    ensures Bounded(Run(w, cfg, events), cfg, a, k)
    decreases |events|
  {
    if events != [] {
      NextKeepsBound(w, cfg, events[0], a, k);
      RunKeepsBound(Next(w, cfg, events[0]), cfg, events[1..], a, k);
    }
  }

  /** Over every interleaving in which at most `k` writers on an artifact are past their check at once, its
      comments exceed the count cap by at most `k - 1`, their characters the size cap by at most `k - 1`
      largest comments. One writer at a time keeps both caps. */
  lemma CommentsBoundedByWriters(db: Db, cfg: Config, events: seq<Event>, a: ArtifactId, k: nat)
    requires CommentsOk(db.comments, cfg) && k > 0 && AtMost(Room(db, map[]), cfg, events, a, k)
    ensures var d := Run(Room(db, map[]), cfg, events).db;
            && |CommentSizes(d.comments, a)| <= cfg.maxComments + k - 1
            && Total(CommentSizes(d.comments, a)) <= cfg.maxCommentBytes + (k - 1) * MAX_COMMENT
  {
    var none: Pcs := map[];
    assert Pending(none, a) == map[];
    RunKeepsBound(Room(db, map[]), cfg, events, a, k);
  }

  /** Undisturbed, check and insert are the transaction. */
  lemma UndisturbedWrite(w: Room, cfg: Config, r: RequestId, q: Request)
    requires Writes(q) && r !in w.pcs
    ensures Next(Next(w, cfg, Check(r, q)), cfg, Insert(r)) == w.(db := After(w.db, Perform(w.db, cfg, q)))
  {
    if Perform(w.db, cfg, q).Commit? {
      PassedMeansPrepared(w.db, cfg, q);
      var x := Prepared(w.db, q);
      assert w.pcs[r := x] - {r} == w.pcs;
    }
  }

  // ---- exactly when the caps hold ----

  /** The event inserts a comment that no longer fits: the count has no room left, or the characters do not. */
  ghost predicate Overfills(w: Room, cfg: Config, e: Event) {
    && e.Insert? && e.r in w.pcs && Insertable(w.db, w.pcs[e.r])
    && var row := w.pcs[e.r].row;
       || |CommentSizes(w.db.comments, row.artifactId)| >= cfg.maxComments
       || Total(CommentSizes(w.db.comments, row.artifactId)) + |row.body| > cfg.maxCommentBytes
  }

  lemma InsertOverfillsExactly(w: Room, cfg: Config, r: RequestId)
    requires CommentsOk(w.db.comments, cfg) && r in w.pcs
    ensures CommentsOk(StepInsert(w, r).db.comments, cfg) <==> !Overfills(w, cfg, Insert(r))
  {
    var x := w.pcs[r];
    if Insertable(w.db, x) {
      var b := x.row.artifactId;
      var sizes, added := CommentSizes(w.db.comments, b), w.db.comments[x.id := x.row];
      forall a
        ensures CommentSizes(added, a) ==
                if a == b then sizes[x.id := |x.row.body|] else CommentSizes(w.db.comments, a)
      {
        InsertSizes(w.db.comments, x.id, x.row, a);
      }
      TotalInsert(sizes, x.id, |x.row.body|);
      assert |CommentSizes(added, b)| == |sizes| + 1;
    }
  }

  lemma NextOverfillsExactly(w: Room, cfg: Config, e: Event)
    requires CommentsOk(w.db.comments, cfg)
    ensures CommentsOk(Next(w, cfg, e).db.comments, cfg) <==> !Overfills(w, cfg, e)
  {
    match e
    case Check(r, q) => var x := CheckOutcome(w, cfg, r, q);
    case Insert(r) => if r in w.pcs { InsertOverfillsExactly(w, cfg, r); }
    case Abandon(r) =>
    case Other(q) =>
      if !Writes(q) {
        NonWritesKeepBodies(w.db, cfg, q);
        DropWithinQuota(w.db.comments, After(w.db, Perform(w.db, cfg, q)).comments, cfg);
      }
  }

  ghost predicate AlwaysWithinCaps(w: Room, cfg: Config, events: seq<Event>)
    decreases |events|
  {
    && CommentsOk(w.db.comments, cfg)
    && (events != [] ==> AlwaysWithinCaps(Next(w, cfg, events[0]), cfg, events[1..]))
  }

  ghost predicate NeverOverfills(w: Room, cfg: Config, events: seq<Event>)
    decreases |events|
  {
    events != [] ==> !Overfills(w, cfg, events[0]) && NeverOverfills(Next(w, cfg, events[0]), cfg, events[1..])
  }

  /** Over every interleaving: every artifact's comments stay within both caps in every state if and only if
      every comment that is inserted still finds room, for itself and for its characters, when it is. */
  lemma {:induction false} CommentCapsHoldExactly(w: Room, cfg: Config, events: seq<Event>)
    requires CommentsOk(w.db.comments, cfg)
    ensures AlwaysWithinCaps(w, cfg, events) <==> NeverOverfills(w, cfg, events)
    decreases |events|
  {
    if events != [] {
      var v := Next(w, cfg, events[0]);
      NextOverfillsExactly(w, cfg, events[0]);
      if Overfills(w, cfg, events[0]) {
        assert !AlwaysWithinCaps(v, cfg, events[1..]);
      } else {
        CommentCapsHoldExactly(v, cfg, events[1..]);
      }
    }
  }

  /** A run, told by the states it goes through. */
  lemma {:induction false} RunThrough(cfg: Config, events: seq<Event>, states: seq<Room>, a: ArtifactId, k: nat)
    requires |states| == |events| + 1
    requires forall i | 0 <= i < |events| :: Next(states[i], cfg, events[i]) == states[i + 1]
    requires forall i | 0 <= i <= |events| :: |Pending(states[i].pcs, a)| <= k
    ensures Run(states[0], cfg, events) == states[|events|] && AtMost(states[0], cfg, events, a, k)
    decreases |events|
  {
    if events != [] {
      assert states[1] == Next(states[0], cfg, events[0]);
      RunThrough(cfg, events[1..], states[1..], a, k);
    }
  }
}
