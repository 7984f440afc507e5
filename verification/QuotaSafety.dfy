/** Locks make the quota checks and the compare-and-set sound under every interleaving. */
module QuotaSafety {
  import opened Schema
  import opened Content
  import opened QuotaRaces
  import opened Totals
  import Quotas

  type Artifacts = map<ArtifactId, ArtifactRow>
  type Versions = map<VersionKey, VersionRow>
  type Pcs = map<RequestId, Pc>

  ghost predicate HoldsLock(locks: map<ConnId, RequestId>, r: RequestId, c: ConnId) {
    c in locks && locks[c] == r
  }

  /** Past `Waiting`, a request holds the lock of its connection. */
  ghost predicate LocksOk(pcs: Pcs, locks: map<ConnId, RequestId>) {
    forall r <- pcs :: !pcs[r].Waiting? ==> HoldsLock(locks, r, Key(pcs[r].job))
  }

  // ---- the artifact count ----

  predicate AddsArtifact(pc: Pc) { pc.Cleared? && !pc.job.Updating? }

  /** No connection over the count; room for one more behind every cleared publish or reassignment. */
  ghost predicate CountOk(artifacts: Artifacts, pcs: Pcs, cap: nat) {
    && (forall c :: |Owned(artifacts, c)| <= cap)
    && (forall r <- pcs :: AddsArtifact(pcs[r]) ==> |Owned(artifacts, Key(pcs[r].job))| < cap)
  }

  lemma CountShrinks(artifacts: Artifacts, pcs: Pcs, artifacts': Artifacts, pcs': Pcs, cap: nat)
    requires CountOk(artifacts, pcs, cap)
    requires forall a <- artifacts' :: a in artifacts && artifacts'[a].connectionId == artifacts[a].connectionId
    requires forall r <- pcs' :: AddsArtifact(pcs'[r]) ==> r in pcs && pcs[r] == pcs'[r]
    ensures CountOk(artifacts', pcs', cap)
  {
    forall c ensures |Owned(artifacts', c)| <= |Owned(artifacts, c)| { Quotas.OwnedShrinks(artifacts, artifacts', c); }
  }

  /** One artifact arrives at `c`, whose lock the request held: nobody else was cleared for `c`. */
  lemma CountGrows(w: Arena, r: RequestId, a: ArtifactId, row: ArtifactRow, cap: nat)
    requires CountOk(w.db.artifacts, w.pcs, cap) && LocksOk(w.pcs, w.locks)
    requires r in w.pcs && AddsArtifact(w.pcs[r]) && Key(w.pcs[r].job) == row.connectionId
    ensures CountOk(w.db.artifacts[a := row], w.pcs - {r}, cap)
  {
    var artifacts' := w.db.artifacts[a := row];
    forall c ensures |Owned(artifacts', c)| <= |Owned(w.db.artifacts, c)| + if row.connectionId == c then 1 else 0 {
      Quotas.OwnedInsert(w.db.artifacts, a, row, c);
    }
    forall q | q in w.pcs - {r} && AddsArtifact(w.pcs[q]) ensures Key(w.pcs[q].job) != row.connectionId {
      assert HoldsLock(w.locks, q, Key(w.pcs[q].job)) && HoldsLock(w.locks, r, row.connectionId);
    }
  }

  ghost predicate CountInv(w: Arena, cfg: Config) {
    LocksOk(w.pcs, w.locks) && CountOk(w.db.artifacts, w.pcs, cfg.maxArtifacts)
  }

  lemma FinishKeepsCount(w: Arena, cfg: Config, r: RequestId)
    requires CountInv(w, cfg)
    ensures CountInv(Finish(w, r), cfg)
  {
  }

  /** A request past its lock may be cleared when there is room for what it adds. */
  lemma ClearKeepsCount(w: Arena, cfg: Config, r: RequestId, row: VersionRow)
    requires CountInv(w, cfg) && r in w.pcs && !w.pcs[r].Waiting?
    requires w.pcs[r].job.Updating? || |Owned(w.db.artifacts, Key(w.pcs[r].job))| < cfg.maxArtifacts
    ensures CountInv(Advance(w, r, Cleared(w.pcs[r].job, row)), cfg)
  {
  }

  lemma CheckKeepsCount(w: Arena, cfg: Config, r: RequestId)
    requires CountInv(w, cfg) && r in w.pcs
    ensures CountInv(StepCheck(w, cfg, r, w.pcs[r]), cfg)
  {
    FinishKeepsCount(w, cfg, r);
    match w.pcs[r]
    case Locked(Publishing(c, row)) =>
      if NewArtifactQuota(w.db, cfg, c, row.byteSize).None? { ClearKeepsCount(w, cfg, r, row); }
    case Locked(Reassigning(a, target, size)) =>
      if NewArtifactQuota(w.db, cfg, target, size).None? { ClearKeepsCount(w, cfg, r, NO_ROW); }
    case Loaded(job, row) => if job.Updating? { ClearKeepsCount(w, cfg, r, row); }
    case _ =>
  }

  lemma CommitsKeepCount(w: Arena, cfg: Config, r: RequestId, a: ArtifactId)
    requires CountInv(w, cfg) && r in w.pcs && w.pcs[r].Cleared?
    ensures w.pcs[r].job.Publishing? ==> CountInv(StepCommitPublish(w, r, w.pcs[r], a), cfg)
    ensures w.pcs[r].job.Updating? ==> CountInv(StepCommitUpdate(w, cfg, r, w.pcs[r]), cfg)
    ensures w.pcs[r].job.Reassigning? ==> CountInv(StepCommitReassign(w, r, w.pcs[r]), cfg)
  {
    var pc := w.pcs[r];
    match pc.job
    case Publishing(c, _) =>
      var row := ArtifactRow(c, pc.row.title, pc.row.format, pc.row.language, pc.row.content, 1, pc.row.byteSize);
      CountGrows(w, r, a, row, cfg.maxArtifacts);
    case Updating(_, b, base, _) =>
      CountShrinks(w.db.artifacts, w.pcs, After(w.db, UpdateCommit(w.db, cfg, b, base, pc.row)).artifacts,
                   w.pcs - {r}, cfg.maxArtifacts);
    case Reassigning(b, target, _) =>
      if b in w.db.artifacts { CountGrows(w, r, b, w.db.artifacts[b].(connectionId := target), cfg.maxArtifacts); }
  }

  lemma NextKeepsCount(w: Arena, cfg: Config, e: Event)
    requires CountInv(w, cfg)
    ensures CountInv(Next(w, cfg, e), cfg)
  {
    match e
    case Check(r) => if r in w.pcs { CheckKeepsCount(w, cfg, r); }
    case CommitPublish(r, a) => if r in w.pcs && w.pcs[r].Cleared? { CommitsKeepCount(w, cfg, r, a); }
    case CommitUpdate(r) => if r in w.pcs && w.pcs[r].Cleared? { CommitsKeepCount(w, cfg, r, 0); }
    case CommitReassign(r) => if r in w.pcs && w.pcs[r].Cleared? { CommitsKeepCount(w, cfg, r, 0); }
    case RemoveArtifact(a) => CountShrinks(w.db.artifacts, w.pcs, w.db.artifacts - {a}, w.pcs, cfg.maxArtifacts);
    case _ =>
  }

  /** Over every interleaving of publish, update, reassign, delete and prune, no connection ever
      owns more artifacts than the cap. */
  lemma {:induction false} CountNeverExceeded(w: Arena, cfg: Config, events: seq<Event>, c: ConnId)
    requires CountInv(w, cfg)
    ensures |Owned(Run(w, cfg, events).db.artifacts, c)| <= cfg.maxArtifacts
    decreases |events|
  {
    if events != [] {
      NextKeepsCount(w, cfg, events[0]);
      CountNeverExceeded(Next(w, cfg, events[0]), cfg, events[1..], c);
    }
  }

  lemma QuietCount(w: Arena, cfg: Config)
    requires Quiet(w) && forall c :: |Owned(w.db.artifacts, c)| <= cfg.maxArtifacts
    ensures CountInv(w, cfg)
  {
  }

  // ---- no lost updates ----

  /** The base versions successful updates of `a` started from, in order. */
  function Bases(wins: seq<Win>, a: ArtifactId): seq<int> {
    if wins == [] then []
    else
      var last := wins[|wins| - 1];
      Bases(wins[..|wins| - 1], a) + if last.a == a then [last.base] else []
  }

  predicate CountsUp(s: seq<int>, start: int) {
    forall i | 0 <= i < |s| :: s[i] == start + i
  }

  lemma BasesAppend(wins: seq<Win>, win: Win, a: ArtifactId)
    ensures Bases(wins + [win], a) == Bases(wins, a) + if win.a == a then [win.base] else []
  {
    assert (wins + [win])[..|wins|] == wins;
  }

  predicate HasRead(pc: Pc) { (pc.Loaded? || pc.Cleared?) && pc.job.Updating? }

  ghost predicate WinsOf(w: Arena, a: ArtifactId) {
    && (a in w.first ==> CountsUp(Bases(w.wins, a), w.first[a]))
    && (a in w.first && a in w.db.artifacts ==> w.db.artifacts[a].version == w.first[a] + |Bases(w.wins, a)|)
    && (a !in w.first ==> Bases(w.wins, a) == [])
  }

  /** An update past its version check works on a known artifact; as long as that artifact was never
      reassigned, it is still the caller's and still at the version that was checked. */
  ghost predicate ReadOk(artifacts: Artifacts, first: map<ArtifactId, int>, moved: set<ArtifactId>, pc: Pc) {
    HasRead(pc) ==>
      && pc.job.a in first
      && (pc.job.a in artifacts && pc.job.a !in moved ==>
            artifacts[pc.job.a].connectionId == pc.job.c && artifacts[pc.job.a].version == pc.job.base)
  }

  ghost predicate UpdatesOk(w: Arena) {
    && LocksOk(w.pcs, w.locks)
    && (forall a <- w.db.artifacts :: a in w.first)
    && (forall r <- w.pcs :: ReadOk(w.db.artifacts, w.first, w.moved, w.pcs[r]))
    && (forall a | a !in w.moved :: WinsOf(w, a))
  }

  lemma UpdateKeepsReads(w: Arena, cfg: Config, r: RequestId)
    requires UpdatesOk(w) && r in w.pcs && w.pcs[r].Cleared? && w.pcs[r].job.Updating?
    ensures var v := StepCommitUpdate(w, cfg, r, w.pcs[r]);
            forall q <- v.pcs :: ReadOk(v.db.artifacts, v.first, v.moved, v.pcs[q])
  {
    var job := w.pcs[r].job;
    var v := StepCommitUpdate(w, cfg, r, w.pcs[r]);
    forall q | q in v.pcs ensures ReadOk(v.db.artifacts, v.first, v.moved, v.pcs[q]) {
      assert ReadOk(w.db.artifacts, w.first, w.moved, w.pcs[q]) && ReadOk(w.db.artifacts, w.first, w.moved, w.pcs[r]);
      // two readers of one artifact would both hold the lock of the connection that owns it
      assert HasRead(w.pcs[q]) ==> HoldsLock(w.locks, q, Key(w.pcs[q].job));
      assert HoldsLock(w.locks, r, job.c);
    }
  }

  lemma UpdateKeepsWins(w: Arena, cfg: Config, r: RequestId)
    requires UpdatesOk(w) && r in w.pcs && w.pcs[r].Cleared? && w.pcs[r].job.Updating?
    ensures var v := StepCommitUpdate(w, cfg, r, w.pcs[r]);
            forall a | a !in v.moved :: WinsOf(v, a)
  {
    var job := w.pcs[r].job;
    var v := StepCommitUpdate(w, cfg, r, w.pcs[r]);
    forall a | a !in v.moved ensures WinsOf(v, a) {
      assert WinsOf(w, a) && ReadOk(w.db.artifacts, w.first, w.moved, w.pcs[r]);
      BasesAppend(w.wins, Win(job.a, job.base), a);
    }
  }

  lemma PublishKeepsUpdates(w: Arena, r: RequestId, a: ArtifactId)
    requires UpdatesOk(w) && r in w.pcs && w.pcs[r].Cleared? && w.pcs[r].job.Publishing?
    ensures UpdatesOk(StepCommitPublish(w, r, w.pcs[r], a))
  {
    var v := StepCommitPublish(w, r, w.pcs[r], a);
    forall b | b !in v.moved ensures WinsOf(v, b) { assert WinsOf(w, b); }
    forall q | q in v.pcs ensures ReadOk(v.db.artifacts, v.first, v.moved, v.pcs[q]) {
      assert ReadOk(w.db.artifacts, w.first, w.moved, w.pcs[q]);
    }
  }

  /** Everything else leaves versions and wins alone, for artifacts that are not reassigned. */
  ghost predicate Calm(w: Arena, v: Arena) {
    && v.wins == w.wins && v.first == w.first && w.moved <= v.moved
    && (forall a <- v.db.artifacts :: a in w.db.artifacts)
    && (forall a <- v.db.artifacts :: a !in v.moved ==> v.db.artifacts[a] == w.db.artifacts[a])
  }

  lemma CalmKeeps(w: Arena, v: Arena)
    requires UpdatesOk(w) && Calm(w, v) && LocksOk(v.pcs, v.locks)
    requires forall q <- v.pcs ::
               (q in w.pcs && w.pcs[q] == v.pcs[q]) || ReadOk(w.db.artifacts, w.first, w.moved, v.pcs[q])
    ensures UpdatesOk(v)
  {
    forall a | a !in v.moved ensures WinsOf(v, a) { assert WinsOf(w, a); }
    forall q | q in v.pcs ensures ReadOk(v.db.artifacts, v.first, v.moved, v.pcs[q]) {
      assert ReadOk(w.db.artifacts, w.first, w.moved, v.pcs[q]);
    }
  }

  lemma StartKeepsUpdates(w: Arena, r: RequestId, job: Job)
    requires UpdatesOk(w)
    ensures UpdatesOk(Start(w, r, job))
  {
    CalmKeeps(w, Start(w, r, job));
  }

  lemma AcquireKeepsUpdates(w: Arena, r: RequestId)
    requires UpdatesOk(w) && r in w.pcs && w.pcs[r].Waiting?
    ensures UpdatesOk(StepAcquire(w, r, w.pcs[r].job))
  {
    CalmKeeps(w, StepAcquire(w, r, w.pcs[r].job));
  }

  lemma FinishKeepsUpdates(w: Arena, r: RequestId)
    requires UpdatesOk(w)
    ensures UpdatesOk(Finish(w, r))
  {
    CalmKeeps(w, Finish(w, r));
  }

  lemma LoadKeepsUpdates(w: Arena, r: RequestId)
    requires UpdatesOk(w) && r in w.pcs && w.pcs[r].Locked? && w.pcs[r].job.Updating?
    ensures UpdatesOk(StepLoad(w, r, w.pcs[r].job))
  {
    CalmKeeps(w, StepLoad(w, r, w.pcs[r].job));
  }

  lemma ReassignKeepsUpdates(w: Arena, r: RequestId)
    requires UpdatesOk(w) && r in w.pcs && w.pcs[r].Cleared? && w.pcs[r].job.Reassigning?
    ensures UpdatesOk(StepCommitReassign(w, r, w.pcs[r]))
  {
    CalmKeeps(w, StepCommitReassign(w, r, w.pcs[r]));
  }

  lemma DropsKeepUpdates(w: Arena, d: Db)
    requires UpdatesOk(w)
    requires forall a <- d.artifacts :: a in w.db.artifacts && d.artifacts[a] == w.db.artifacts[a]
    ensures UpdatesOk(w.(db := d))
  {
    CalmKeeps(w, w.(db := d));
  }

  lemma NextKeepsUpdates(w: Arena, cfg: Config, e: Event)
    requires UpdatesOk(w)
    ensures UpdatesOk(Next(w, cfg, e))
  {
    match e
    case BeginPublish(r, c, row) => StartKeepsUpdates(w, r, Publishing(c, row));
    case BeginUpdate(r, c, a, base, change) => StartKeepsUpdates(w, r, Updating(c, a, base, change));
    case BeginReassign(r, u, a, target) =>
      if a in w.db.artifacts { StartKeepsUpdates(w, r, Reassigning(a, target, w.db.artifacts[a].byteSize)); }
    case Acquire(r) => if r in w.pcs && w.pcs[r].Waiting? { AcquireKeepsUpdates(w, r); }
    case Load(r) => if r in w.pcs && w.pcs[r].Locked? && w.pcs[r].job.Updating? { LoadKeepsUpdates(w, r); }
    case Check(r) => CheckKeepsUpdates(w, cfg, r);
    case CommitPublish(r, a) =>
      if r in w.pcs && w.pcs[r].Cleared? && w.pcs[r].job.Publishing? { PublishKeepsUpdates(w, r, a); }
    case CommitUpdate(r) =>
      if r in w.pcs && w.pcs[r].Cleared? && w.pcs[r].job.Updating? {
        UpdateKeepsReads(w, cfg, r);
        UpdateKeepsWins(w, cfg, r);
      }
    case CommitReassign(r) =>
      if r in w.pcs && w.pcs[r].Cleared? && w.pcs[r].job.Reassigning? { ReassignKeepsUpdates(w, r); }
    case Abandon(r) => FinishKeepsUpdates(w, r);
    case RemoveArtifact(a) => DropsKeepUpdates(w, WithoutArtifact(w.db, a));
    case BeginPrune(r, u, a) => CalmKeeps(w, Next(w, cfg, e));
    case BeginDelete(r, u, a, v) => CalmKeeps(w, Next(w, cfg, e));
    case FinishDrop(r) => CalmKeeps(w, Next(w, cfg, e));
    case OtherTables(d) => DropsKeepUpdates(w, d.(artifacts := w.db.artifacts, versions := w.db.versions));
  }

  lemma ClearKeepsUpdates(w: Arena, r: RequestId, row: VersionRow)
    requires UpdatesOk(w) && r in w.pcs && !w.pcs[r].Waiting? && (w.pcs[r].Loaded? || !w.pcs[r].job.Updating?)
    ensures UpdatesOk(Advance(w, r, Cleared(w.pcs[r].job, row)))
  {
    assert ReadOk(w.db.artifacts, w.first, w.moved, w.pcs[r]);
    CalmKeeps(w, Advance(w, r, Cleared(w.pcs[r].job, row)));
  }

  lemma CheckKeepsUpdates(w: Arena, cfg: Config, r: RequestId)
    requires UpdatesOk(w)
    ensures UpdatesOk(Next(w, cfg, Check(r)))
  {
    FinishKeepsUpdates(w, r);
    if r in w.pcs {
      match w.pcs[r]
      case Locked(Publishing(c, row)) => ClearKeepsUpdates(w, r, row);
      case Locked(Reassigning(a, target, size)) => ClearKeepsUpdates(w, r, NO_ROW);
      case Loaded(job, row) => ClearKeepsUpdates(w, r, row);
      case _ =>
    }
  }

  lemma {:induction false} RunKeepsUpdates(w: Arena, cfg: Config, events: seq<Event>)
    requires UpdatesOk(w)
    ensures UpdatesOk(Run(w, cfg, events))
    decreases |events|
  {
    if events != [] {
      NextKeepsUpdates(w, cfg, events[0]);
      RunKeepsUpdates(Next(w, cfg, events[0]), cfg, events[1..]);
    }
  }

  lemma QuietUpdates(w: Arena)
    requires Quiet(w)
    ensures UpdatesOk(w)
  {
  }

  /** The version an artifact starts a run with: the one it has, or 1 if it is published during the run. */
  function StartVersion(w: Arena, a: ArtifactId): int {
    if a in w.db.artifacts then w.db.artifacts[a].version else 1
  }

  lemma {:induction false} FirstStays(w: Arena, cfg: Config, events: seq<Event>, a: ArtifactId, known: bool)
    requires if known then a in w.first else a !in w.first
    ensures known ==> a in Run(w, cfg, events).first && Run(w, cfg, events).first[a] == w.first[a]
    ensures !known && a in Run(w, cfg, events).first ==> Run(w, cfg, events).first[a] == 1
    decreases |events|
  {
    if events != [] {
      FirstStep(w, cfg, events[0], a);
      var v := Next(w, cfg, events[0]);
      FirstStays(v, cfg, events[1..], a, a in v.first);
    }
  }

  lemma FirstStep(w: Arena, cfg: Config, e: Event, a: ArtifactId)
    ensures var v := Next(w, cfg, e);
            && (a in w.first ==> a in v.first && v.first[a] == w.first[a])
            && (a !in w.first && a in v.first ==> v.first[a] == 1)
  {
  }

  /** Compare-and-set never loses an update. In any interleaving, from any quiet start, an artifact not
      reassigned is at the version it started with plus its successful updates, and those consumed the
      base versions from the start version up, in order, each exactly once. */
  lemma NoLostUpdates(w: Arena, cfg: Config, events: seq<Event>, a: ArtifactId)
    requires Quiet(w)
    requires a in Run(w, cfg, events).db.artifacts && a !in Run(w, cfg, events).moved
    ensures var v := Run(w, cfg, events);
            && v.db.artifacts[a].version == StartVersion(w, a) + |Bases(v.wins, a)|
            && (forall i | 0 <= i < |Bases(v.wins, a)| :: Bases(v.wins, a)[i] == StartVersion(w, a) + i)
  {
    QuietUpdates(w);
    RunKeepsUpdates(w, cfg, events);
    assert WinsOf(Run(w, cfg, events), a);
    FirstStays(w, cfg, events, a, a in w.first);
  }

  // ---- the stored-bytes cap ----

  /** The bytes a cleared request is about to add to its connection. */
  function Reserved(pc: Pc): nat {
    if pc.Cleared? then pc.row.byteSize else 0
  }

  ghost predicate StoredOk(artifacts: Artifacts, versions: Versions, pcs: Pcs, cap: nat) {
    && (forall c :: Total(StoredRows(artifacts, versions, c)) <= cap)
    && (forall r <- pcs :: pcs[r].Cleared? ==>
          Total(StoredRows(artifacts, versions, Key(pcs[r].job))) + Reserved(pcs[r]) <= cap)
  }

  predicate NoReassign(pcs: Pcs) { forall r <- pcs :: !pcs[r].job.Reassigning? }

  ghost predicate StoredInv(w: Arena, cfg: Config) {
    UpdatesOk(w) && StoredPart(w, cfg)
  }

  lemma StoredShrinks(artifacts: Artifacts, versions: Versions, pcs: Pcs, artifacts': Artifacts, versions': Versions,
                      pcs': Pcs, cap: nat)
    requires StoredOk(artifacts, versions, pcs, cap)
    requires forall k <- versions' :: k in versions && versions'[k] == versions[k]
    requires forall a <- artifacts' :: a in artifacts && artifacts'[a].connectionId == artifacts[a].connectionId
    requires forall r <- pcs' :: pcs'[r].Cleared? ==> r in pcs && pcs[r] == pcs'[r]
    ensures StoredOk(artifacts', versions', pcs', cap)
  {
    forall c ensures Total(StoredRows(artifacts', versions', c)) <= Total(StoredRows(artifacts, versions, c)) {
      Quotas.FewerRows(artifacts, versions, artifacts', versions', c);
    }
  }

  /** One row arrives at the connection whose lock `r` held, and fits what was reserved. */
  lemma StoredGrows(w: Arena, r: RequestId, artifacts': Artifacts, k: VersionKey, cap: nat)
    requires StoredOk(w.db.artifacts, w.db.versions, w.pcs, cap) && LocksOk(w.pcs, w.locks)
    requires r in w.pcs && w.pcs[r].Cleared?
    requires forall j <- w.db.versions :: j.artifact in w.db.artifacts && j.artifact in artifacts'
                && artifacts'[j.artifact].connectionId == w.db.artifacts[j.artifact].connectionId
    requires k !in w.db.versions && k.artifact in artifacts' && artifacts'[k.artifact].connectionId == Key(w.pcs[r].job)
    ensures StoredOk(artifacts', w.db.versions[k := w.pcs[r].row], w.pcs - {r}, cap)
  {
    var row := w.pcs[r].row;
    var versions' := w.db.versions[k := row];
    forall c ensures Total(StoredRows(artifacts', versions', c)) ==
                     Total(StoredRows(w.db.artifacts, w.db.versions, c))
                     + if Key(w.pcs[r].job) == c then row.byteSize else 0 {
      Quotas.NewRow(w.db.artifacts, w.db.versions, artifacts', k, row, c);
    }
    forall q | q in w.pcs - {r} && w.pcs[q].Cleared? ensures Key(w.pcs[q].job) != Key(w.pcs[r].job) {
      assert HoldsLock(w.locks, q, Key(w.pcs[q].job)) && HoldsLock(w.locks, r, Key(w.pcs[r].job));
    }
  }

  lemma PublishKeepsStored(w: Arena, cfg: Config, r: RequestId, a: ArtifactId)
    requires StoredInv(w, cfg) && r in w.pcs && w.pcs[r].Cleared? && w.pcs[r].job.Publishing?
    ensures var v := StepCommitPublish(w, r, w.pcs[r], a);
            StoredPart(v, cfg)
  {
    var tx := PublishCommit(w.db, w.pcs[r].job.c, a, w.pcs[r].row);
    if tx.Commit? && a !in w.first {
      StoredGrows(w, r, tx.db.artifacts, VersionKey(a, 1), cfg.maxTotalBytes);
    }
  }

  lemma UpdateKeepsStored(w: Arena, cfg: Config, r: RequestId)
    requires StoredInv(w, cfg) && r in w.pcs && w.pcs[r].Cleared? && w.pcs[r].job.Updating?
    ensures var v := StepCommitUpdate(w, cfg, r, w.pcs[r]);
            StoredPart(v, cfg)
  {
    var job := w.pcs[r].job;
    var tx := UpdateCommit(w.db, cfg, job.a, job.base, w.pcs[r].row);
    if tx.Commit? {
      var written := Appended(w.db, job.a, job.base, w.pcs[r].row);
      assert ReadOk(w.db.artifacts, w.first, w.moved, w.pcs[r]);
      StoredGrows(w, r, written.artifacts, VersionKey(job.a, job.base + 1), cfg.maxTotalBytes);
      StoredShrinks(written.artifacts, written.versions, w.pcs - {r}, tx.db.artifacts, tx.db.versions, w.pcs - {r},
                    cfg.maxTotalBytes);
    }
  }

  lemma ClearKeepsStored(w: Arena, cfg: Config, r: RequestId, row: VersionRow)
    requires StoredPart(w, cfg) && r in w.pcs
    requires StoredBytes(w.db, Key(w.pcs[r].job)) + row.byteSize <= cfg.maxTotalBytes
    ensures StoredPart(Advance(w, r, Cleared(w.pcs[r].job, row)), cfg)
  {
  }

  lemma CheckKeepsStored(w: Arena, cfg: Config, r: RequestId)
    requires StoredInv(w, cfg) && r in w.pcs
    ensures StoredPart(StepCheck(w, cfg, r, w.pcs[r]), cfg)
  {
    match w.pcs[r]
    case Locked(Publishing(c, row)) =>
      if NewArtifactQuota(w.db, cfg, c, row.byteSize).None? { ClearKeepsStored(w, cfg, r, row); }
    case Loaded(job, row) =>
      if job.Updating? && UpdateQuota(w.db, cfg, job.c, row.byteSize).None? { ClearKeepsStored(w, cfg, r, row); }
    case _ =>
  }

  ghost predicate StoredPart(w: Arena, cfg: Config) {
    && w.moved == {} && NoReassign(w.pcs)
    && (forall k <- w.db.versions :: k.artifact in w.db.artifacts)
    && StoredOk(w.db.artifacts, w.db.versions, w.pcs, cfg.maxTotalBytes)
  }

  /** No row arrives, nobody new is cleared. */
  ghost predicate Idle(w: Arena, v: Arena) {
    && v.moved == w.moved
    && (forall k <- v.db.versions ::
          k in w.db.versions && v.db.versions[k] == w.db.versions[k] && k.artifact in v.db.artifacts)
    && (forall a <- v.db.artifacts :: a in w.db.artifacts && v.db.artifacts[a] == w.db.artifacts[a])
    && (forall r <- v.pcs :: !v.pcs[r].job.Reassigning? && (v.pcs[r].Cleared? ==> r in w.pcs && w.pcs[r] == v.pcs[r]))
  }

  lemma IdleKeepsStored(w: Arena, v: Arena, cfg: Config)
    requires StoredPart(w, cfg) && Idle(w, v)
    ensures StoredPart(v, cfg)
  {
    StoredShrinks(w.db.artifacts, w.db.versions, w.pcs, v.db.artifacts, v.db.versions, v.pcs, cfg.maxTotalBytes);
  }

  /** Events that only move requests along. */
  predicate Moving(e: Event) {
    e.BeginPublish? || e.BeginUpdate? || e.Acquire? || e.Abandon? || e.BeginPrune? || e.BeginDelete?
  }

  /** Events that only remove content. */
  predicate Dropping(e: Event) { e.RemoveArtifact? || e.FinishDrop? || e.OtherTables? }

  lemma MovingIsIdle(w: Arena, cfg: Config, e: Event)
    requires StoredPart(w, cfg) && Moving(e)
    ensures Idle(w, Next(w, cfg, e))
  {
  }

  lemma DroppingIsIdle(w: Arena, cfg: Config, e: Event)
    requires StoredPart(w, cfg) && Dropping(e)
    ensures Idle(w, Next(w, cfg, e))
  {
  }

  lemma LoadIsIdle(w: Arena, cfg: Config, r: RequestId)
    requires StoredPart(w, cfg)
    ensures Idle(w, Next(w, cfg, Load(r)))
  {
  }

  lemma NextKeepsStored(w: Arena, cfg: Config, e: Event)
    requires StoredInv(w, cfg) && !e.BeginReassign?
    ensures StoredPart(Next(w, cfg, e), cfg)
  {
    match e
    case Load(r) =>
      LoadIsIdle(w, cfg, r);
      IdleKeepsStored(w, Next(w, cfg, e), cfg);
    case Check(r) => if r in w.pcs { CheckKeepsStored(w, cfg, r); }
    case CommitPublish(r, a) =>
      if r in w.pcs && w.pcs[r].Cleared? && w.pcs[r].job.Publishing? { PublishKeepsStored(w, cfg, r, a); }
    case CommitUpdate(r) =>
      if r in w.pcs && w.pcs[r].Cleared? && w.pcs[r].job.Updating? { UpdateKeepsStored(w, cfg, r); }
    case CommitReassign(r) =>
    case _ =>
      if Moving(e) { MovingIsIdle(w, cfg, e); } else { DroppingIsIdle(w, cfg, e); }
      IdleKeepsStored(w, Next(w, cfg, e), cfg);
  }

  /** Over every interleaving of publish, update, delete and prune, no connection ever stores more
      bytes than the cap. */
  lemma {:induction false} StoredBytesNeverExceeded(w: Arena, cfg: Config, events: seq<Event>, c: ConnId)
    requires StoredInv(w, cfg) && forall e <- events :: !e.BeginReassign?
    ensures StoredBytes(Run(w, cfg, events).db, c) <= cfg.maxTotalBytes
    decreases |events|
  {
    if events != [] {
      NextKeepsUpdates(w, cfg, events[0]);
      NextKeepsStored(w, cfg, events[0]);
      StoredBytesNeverExceeded(Next(w, cfg, events[0]), cfg, events[1..], c);
    }
  }

  lemma QuietStored(w: Arena, cfg: Config)
    requires Quiet(w) && forall k <- w.db.versions :: k.artifact in w.db.artifacts
    requires forall c :: StoredBytes(w.db, c) <= cfg.maxTotalBytes
    ensures StoredInv(w, cfg)
  {
    QuietUpdates(w);
    forall c ensures Total(StoredRows(w.db.artifacts, w.db.versions, c)) <= cfg.maxTotalBytes {
      assert StoredBytes(w.db, c) <= cfg.maxTotalBytes;
    }
  }
}
