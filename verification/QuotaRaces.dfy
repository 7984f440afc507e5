/** Publish, update and reassign with their lock, check and commit as separate steps, and the two
    requests on stored versions, which take no lock, with their read and their delete as separate steps.

    Requests interleave freely. `first`, `moved` and `wins` are history: no step consults them, except
    to draw a fresh artifact id. */
module QuotaRaces {
  import opened Basics
  import opened Schema
  import opened Content

  type RequestId = nat

  /** The optional arguments of update_artifact. */
  datatype Change = Change(content: string, format: Option<string>, title: Option<string>, language: Option<string>)

  datatype Job =
    | Publishing(c: ConnId, row: VersionRow)
    | Updating(c: ConnId, a: ArtifactId, base: int, change: Change)
    | Reassigning(a: ArtifactId, target: ConnId, size: nat)

  /** Waiting for the lock; holding it; holding it with the update's row read; cleared to commit. */
  datatype Pc =
    | Waiting(job: Job)
    | Locked(job: Job)
    | Loaded(job: Job, row: VersionRow)
    | Cleared(job: Job, row: VersionRow)

  /** prune_old_versions or delete_version between its read and its DELETE: the version it read as
      current, and how many updates had been committed by then. */
  datatype Drop =
    | Pruning(a: ArtifactId, read: int, since: nat)
    | Deleting(a: ArtifactId, v: int, read: int, since: nat)

  /** One successful update. */
  datatype Win = Win(a: ArtifactId, base: int)

  datatype Arena = Arena(
    db: Db, pcs: map<RequestId, Pc>, drops: map<RequestId, Drop>, locks: map<ConnId, RequestId>,
    first: map<ArtifactId, int>,  // every artifact id ever drawn, and the version it was first seen at
    moved: set<ArtifactId>,       // every artifact ever reassigned
    wins: seq<Win>)               // every successful update, in order of commit

  datatype Event =
    | BeginPublish(r: RequestId, c: ConnId, row: VersionRow)
    | BeginUpdate(r: RequestId, c: ConnId, a: ArtifactId, base: int, change: Change)
    | BeginReassign(r: RequestId, u: UserId, a: ArtifactId, target: ConnId)
    | Acquire(r: RequestId)
    | Load(r: RequestId)
    | Check(r: RequestId)
    | CommitPublish(r: RequestId, a: ArtifactId)
    | CommitUpdate(r: RequestId)
    | CommitReassign(r: RequestId)
    | Abandon(r: RequestId)
    | RemoveArtifact(a: ArtifactId)
    | BeginPrune(r: RequestId, u: UserId, a: ArtifactId)
    | BeginDelete(r: RequestId, u: UserId, a: ArtifactId, v: int)
    | FinishDrop(r: RequestId)
    | OtherTables(d: Db)

  /** The connection whose lock the job takes: the target's, for a reassignment. */
  function Key(job: Job): ConnId {
    match job
    case Publishing(c, _) => c
    case Updating(c, _, _, _) => c
    case Reassigning(_, target, _) => target
  }

  function Finish(w: Arena, r: RequestId): Arena {
    w.(pcs := w.pcs - {r}, locks := map c | c in w.locks && w.locks[c] != r :: w.locks[c])
  }

  function Advance(w: Arena, r: RequestId, pc: Pc): Arena { w.(pcs := w.pcs[r := pc]) }

  function Start(w: Arena, r: RequestId, job: Job): Arena {
    if r in w.pcs then w else Advance(w, r, Waiting(job))
  }

  function StepAcquire(w: Arena, r: RequestId, job: Job): Arena {
    if Key(job) in w.locks then w
    else Advance(w.(locks := w.locks[Key(job) := r]), r, Locked(job))
  }

  /** What update_artifact would store, unless it fails before the quota check. */
  function RowToStore(db: Db, job: Job): Option<VersionRow>
    requires job.Updating?
  {
    if !OwnedBy(db, job.c, job.a) || db.artifacts[job.a].version != job.base then None
    else
      var current := db.artifacts[job.a];
      var parsed := if job.change.format.Some? then ParseFormat(job.change.format.value) else Some(current.format);
      if parsed.None? then None
      else Some(NewVersion(current, job.change.content, parsed.value, job.change.title, job.change.language))
  }

  /** The version check under the lock. */
  function StepLoad(w: Arena, r: RequestId, job: Job): Arena
    requires job.Updating?
  {
    var row := RowToStore(w.db, job);
    if row.None? then Finish(w, r) else Advance(w, r, Loaded(job, row.value))
  }

  const NO_ROW := VersionRow(None, Html, None, "", 0)

  ghost function StepCheck(w: Arena, cfg: Config, r: RequestId, pc: Pc): Arena {
    match pc
    case Locked(Publishing(c, row)) =>
      if NewArtifactQuota(w.db, cfg, c, row.byteSize).Some? then Finish(w, r) else Advance(w, r, Cleared(pc.job, row))
    case Locked(Reassigning(a, target, size)) =>
      if NewArtifactQuota(w.db, cfg, target, size).Some? then Finish(w, r) else Advance(w, r, Cleared(pc.job, NO_ROW))
    case Loaded(job, row) =>
      if job.Updating? && UpdateQuota(w.db, cfg, job.c, row.byteSize).None? then Advance(w, r, Cleared(job, row))
      else Finish(w, r)
    case _ => w
  }

  function StepCommitPublish(w: Arena, r: RequestId, pc: Pc, a: ArtifactId): Arena
    requires pc.Cleared? && pc.job.Publishing?
  {
    var tx := PublishCommit(w.db, pc.job.c, a, pc.row);
    if a in w.first then w
    else Finish(w, r).(db := After(w.db, tx), first := w.first[a := 1])
  }

  function StepCommitUpdate(w: Arena, cfg: Config, r: RequestId, pc: Pc): Arena
    requires pc.Cleared? && pc.job.Updating?
  {
    var tx := UpdateCommit(w.db, cfg, pc.job.a, pc.job.base, pc.row);
    if tx.Refuse? then Finish(w, r)
    else Finish(w, r).(db := tx.db, wins := w.wins + [Win(pc.job.a, pc.job.base)])
  }

  function StepCommitReassign(w: Arena, r: RequestId, pc: Pc): Arena
    requires pc.Cleared? && pc.job.Reassigning?
  {
    Finish(w, r).(db := After(w.db, ReassignCommit(w.db, pc.job.a, pc.job.target)), moved := w.moved + {pc.job.a})
  }

  /** get_owned_artifact_by_user, and delete_version's refusal to delete what it reads as current. */
  function StepBeginDrop(w: Arena, r: RequestId, u: UserId, a: ArtifactId, v: Option<int>): Arena {
    if r in w.drops || !OwnedByUser(w.db, u, a) || v == Some(w.db.artifacts[a].version) then w
    else
      var read := w.db.artifacts[a].version;
      w.(drops := w.drops[r := if v.None? then Pruning(a, read, |w.wins|) else Deleting(a, v.value, read, |w.wins|)])
  }

  /** The version rows the DELETE leaves. */
  function Rest(db: Db, drop: Drop): map<VersionKey, VersionRow> {
    match drop
    case Pruning(a, read, _) => AllButVersion(db, a, read)
    case Deleting(a, v, _, _) => db.versions - {VersionKey(a, v)}
  }

  function StepFinishDrop(w: Arena, r: RequestId): Arena
    requires r in w.drops
  {
    w.(drops := w.drops - {r}, db := w.db.(versions := Rest(w.db, w.drops[r])))
  }

  ghost function Next(w: Arena, cfg: Config, e: Event): Arena {
    match e
    case BeginPublish(r, c, row) => Start(w, r, Publishing(c, row))
    case BeginUpdate(r, c, a, base, change) => Start(w, r, Updating(c, a, base, change))
    case BeginReassign(r, u, a, target) =>
      if OwnedByUser(w.db, u, a) && target != w.db.artifacts[a].connectionId && ValidTarget(w.db, u, target)
      then Start(w, r, Reassigning(a, target, w.db.artifacts[a].byteSize)) else w
    case Acquire(r) => if r in w.pcs && w.pcs[r].Waiting? then StepAcquire(w, r, w.pcs[r].job) else w
    case Load(r) => if r in w.pcs && w.pcs[r].Locked? && w.pcs[r].job.Updating? then StepLoad(w, r, w.pcs[r].job) else w
    case Check(r) => if r in w.pcs then StepCheck(w, cfg, r, w.pcs[r]) else w
    case CommitPublish(r, a) =>
      if r in w.pcs && w.pcs[r].Cleared? && w.pcs[r].job.Publishing? then StepCommitPublish(w, r, w.pcs[r], a) else w
    case CommitUpdate(r) =>
      if r in w.pcs && w.pcs[r].Cleared? && w.pcs[r].job.Updating? then StepCommitUpdate(w, cfg, r, w.pcs[r]) else w
    case CommitReassign(r) =>
      if r in w.pcs && w.pcs[r].Cleared? && w.pcs[r].job.Reassigning? then StepCommitReassign(w, r, w.pcs[r]) else w
    case Abandon(r) => Finish(w, r)
    case RemoveArtifact(a) => w.(db := WithoutArtifact(w.db, a))
    case BeginPrune(r, u, a) => StepBeginDrop(w, r, u, a, None)
    case BeginDelete(r, u, a, v) => StepBeginDrop(w, r, u, a, Some(v))
    case FinishDrop(r) => if r in w.drops then StepFinishDrop(w, r) else w
    case OtherTables(d) => w.(db := d.(artifacts := w.db.artifacts, versions := w.db.versions))
  }

  ghost function Run(w: Arena, cfg: Config, events: seq<Event>): Arena
    decreases |events|
  {
    if events == [] then w else Run(Next(w, cfg, events[0]), cfg, events[1..])
  }

  /** No request in flight and no history yet: where a run starts, whatever the tables hold. */
  predicate Quiet(w: Arena) {
    && w.pcs == map[] && w.drops == map[] && w.locks == map[] && w.wins == [] && w.moved == {}
    && w.first == map a | a in w.db.artifacts :: w.db.artifacts[a].version
  }

  lemma {:induction false} RunAppend(w: Arena, cfg: Config, before: seq<Event>, after: seq<Event>)
    ensures Run(w, cfg, before + after) == Run(Run(w, cfg, before), cfg, after)
    decreases |before|
  {
    if before == [] {
      assert before + after == after;
    } else {
      assert (before + after)[1..] == before[1..] + after;
      RunAppend(Next(w, cfg, before[0]), cfg, before[1..], after);
    }
  }

  // ---- undisturbed, the steps of a request are its transaction ----

  /** `r` is not in flight and holds no lock. */
  predicate Free(w: Arena, r: RequestId) {
    r !in w.pcs && forall c <- w.locks :: w.locks[c] != r
  }

  /** The arena with one more request, holding its lock. */
  function Held(w: Arena, r: RequestId, pc: Pc): Arena {
    w.(pcs := w.pcs[r := pc], locks := w.locks[Key(pc.job) := r])
  }

  lemma FinishUndoes(w: Arena, r: RequestId, pc: Pc)
    requires Free(w, r) && Key(pc.job) !in w.locks
    ensures Finish(Held(w, r, pc), r) == w
  {
  }

  function PublishSteps(r: RequestId, c: ConnId, row: VersionRow, a: ArtifactId): seq<Event> {
    [BeginPublish(r, c, row), Acquire(r), Check(r), CommitPublish(r, a)]
  }

  function UpdateSteps(r: RequestId, c: ConnId, a: ArtifactId, base: int, change: Change): seq<Event> {
    [BeginUpdate(r, c, a, base, change), Acquire(r), Load(r), Check(r), CommitUpdate(r)]
  }

  function ReassignSteps(r: RequestId, u: UserId, a: ArtifactId, target: ConnId): seq<Event> {
    [BeginReassign(r, u, a, target), Acquire(r), Check(r), CommitReassign(r)]
  }

  lemma FourSteps(w: Arena, cfg: Config, e: Event, f: Event, g: Event, h: Event)
    ensures Run(w, cfg, [e, f, g, h]) == Next(Next(Next(Next(w, cfg, e), cfg, f), cfg, g), cfg, h)
  {
    TwoSteps(w, cfg, e, f);
    TwoSteps(Next(Next(w, cfg, e), cfg, f), cfg, g, h);
    RunAppend(w, cfg, [e, f], [g, h]);
    assert [e, f] + [g, h] == [e, f, g, h];
  }

  lemma TwoSteps(w: Arena, cfg: Config, e: Event, f: Event)
    ensures Run(w, cfg, [e, f]) == Next(Next(w, cfg, e), cfg, f)
  {
    OneStep(Next(w, cfg, e), cfg, f);
    assert [e, f][1..] == [f];
  }

  lemma OneStep(w: Arena, cfg: Config, e: Event)
    ensures Run(w, cfg, [e]) == Next(w, cfg, e)
  {
    assert [e][1..] == [];
    assert Run(Next(w, cfg, e), cfg, []) == Next(w, cfg, e);
  }

  /** Publishing, with nothing in between, checks the quota and commits as publish_artifact does at once. */
  lemma UndisturbedPublish(w: Arena, cfg: Config, r: RequestId, c: ConnId, row: VersionRow, a: ArtifactId)
    requires Free(w, r) && c !in w.locks && a !in w.first
    ensures Run(w, cfg, PublishSteps(r, c, row, a)) ==
            if NewArtifactQuota(w.db, cfg, c, row.byteSize).Some? then w
            else w.(db := After(w.db, PublishCommit(w.db, c, a, row)), first := w.first[a := 1])
  {
    var job := Publishing(c, row);
    FourSteps(w, cfg, BeginPublish(r, c, row), Acquire(r), Check(r), CommitPublish(r, a));
    assert Next(Next(w, cfg, BeginPublish(r, c, row)), cfg, Acquire(r)) == Held(w, r, Locked(job));
    FinishUndoes(w, r, Locked(job));
    FinishUndoes(w, r, Cleared(job, row));
  }

  lemma ReassignFinishes(w: Arena, cfg: Config, r: RequestId, u: UserId, a: ArtifactId, target: ConnId)
    requires Free(w, r) && target !in w.locks && OwnedByUser(w.db, u, a) && ValidTarget(w.db, u, target)
    requires target != w.db.artifacts[a].connectionId
    ensures var tx := Reassign(w.db, cfg, u, a, target);
            var held := Held(w, r, Locked(Reassigning(a, target, w.db.artifacts[a].byteSize)));
            Next(Next(held, cfg, Check(r)), cfg, CommitReassign(r)) ==
              if tx.Commit? then w.(db := tx.db, moved := w.moved + {a}) else w
  {
    var job := Reassigning(a, target, w.db.artifacts[a].byteSize);
    FinishUndoes(w, r, Locked(job));
    FinishUndoes(w, r, Cleared(job, NO_ROW));
  }

  /** Reassigning, with nothing in between, is the transaction Reassign. */
  lemma UndisturbedReassign(w: Arena, cfg: Config, r: RequestId, u: UserId, a: ArtifactId, target: ConnId)
    requires Free(w, r) && target !in w.locks
    ensures var tx := Reassign(w.db, cfg, u, a, target);
            Run(w, cfg, ReassignSteps(r, u, a, target)) ==
              if tx.Commit? then w.(db := tx.db, moved := w.moved + {a}) else w
  {
    FourSteps(w, cfg, BeginReassign(r, u, a, target), Acquire(r), Check(r), CommitReassign(r));
    if OwnedByUser(w.db, u, a) && target != w.db.artifacts[a].connectionId && ValidTarget(w.db, u, target) {
      var job := Reassigning(a, target, w.db.artifacts[a].byteSize);
      ReassignBegins(w, cfg, r, u, a, target);
      ReassignFinishes(w, cfg, r, u, a, target);
    }
  }

  lemma ReassignBegins(w: Arena, cfg: Config, r: RequestId, u: UserId, a: ArtifactId, target: ConnId)
    requires Free(w, r) && target !in w.locks && OwnedByUser(w.db, u, a) && ValidTarget(w.db, u, target)
    requires target != w.db.artifacts[a].connectionId
    ensures Next(Next(w, cfg, BeginReassign(r, u, a, target)), cfg, Acquire(r))
         == Held(w, r, Locked(Reassigning(a, target, w.db.artifacts[a].byteSize)))
  {
  }

  /** The lock taken and, if the version is the one named, the row to store computed. */
  lemma UpdateLoads(w: Arena, cfg: Config, r: RequestId, job: Job)
    requires Free(w, r) && job.Updating? && job.c !in w.locks
    ensures var begun := Next(w, cfg, BeginUpdate(r, job.c, job.a, job.base, job.change));
            Next(Next(begun, cfg, Acquire(r)), cfg, Load(r)) ==
              if RowToStore(w.db, job).None? then w else Held(w, r, Loaded(job, RowToStore(w.db, job).value))
  {
    assert Next(Next(w, cfg, BeginUpdate(r, job.c, job.a, job.base, job.change)), cfg, Acquire(r))
        == Held(w, r, Locked(job));
    FinishUndoes(w, r, Locked(job));
  }

  /** Checked and committed from there, with nothing in between. */
  lemma UpdateFinishes(w: Arena, cfg: Config, r: RequestId, job: Job, row: VersionRow)
    requires Free(w, r) && job.Updating? && job.c !in w.locks
    ensures var ends := Next(Next(Held(w, r, Loaded(job, row)), cfg, Check(r)), cfg, CommitUpdate(r));
            var tx := UpdateCommit(w.db, cfg, job.a, job.base, row);
            ends == if UpdateQuota(w.db, cfg, job.c, row.byteSize).Some? || tx.Refuse? then w
                    else w.(db := tx.db, wins := w.wins + [Win(job.a, job.base)])
  {
    FinishUndoes(w, r, Loaded(job, row));
    FinishUndoes(w, r, Cleared(job, row));
  }

  /** Updating, with nothing in between, is the transaction Update. */
  lemma UndisturbedUpdate(w: Arena, cfg: Config, r: RequestId, c: ConnId, a: ArtifactId, base: int, change: Change)
    requires Free(w, r) && c !in w.locks
    requires |change.content| <= cfg.maxArtifactBytes && !MetadataTooLong(change.title, change.language)
    ensures var tx := Update(w.db, cfg, c, a, change.content, base, change.format, change.title, change.language);
            Run(w, cfg, UpdateSteps(r, c, a, base, change)) ==
            if tx.Commit? then w.(db := tx.db, wins := w.wins + [Win(a, base)]) else w
  {
    var e := UpdateSteps(r, c, a, base, change);
    var job := Updating(c, a, base, change);
    UpdateLoads(w, cfg, r, job);
    if RowToStore(w.db, job).Some? { UpdateFinishes(w, cfg, r, job, RowToStore(w.db, job).value); }
    FourSteps(w, cfg, e[0], e[1], e[2], e[3]);
    OneStep(Run(w, cfg, e[..4]), cfg, e[4]);
    RunAppend(w, cfg, e[..4], [e[4]]);
    assert e[..4] == [e[0], e[1], e[2], e[3]] && e == e[..4] + [e[4]];
  }

  /** Pruning, with nothing in between, is the transaction Prune. */
  lemma UndisturbedPrune(w: Arena, cfg: Config, r: RequestId, u: UserId, a: ArtifactId)
    requires r !in w.drops
    ensures Run(w, cfg, [BeginPrune(r, u, a), FinishDrop(r)]) == w.(db := After(w.db, Prune(w.db, u, a)))
  {
    TwoSteps(w, cfg, BeginPrune(r, u, a), FinishDrop(r));
    if OwnedByUser(w.db, u, a) {
      assert w.drops[r := Pruning(a, w.db.artifacts[a].version, |w.wins|)] - {r} == w.drops;
    }
  }

  /** Deleting a version, with nothing in between, is the transaction DeleteVersion. */
  lemma UndisturbedDelete(w: Arena, cfg: Config, r: RequestId, u: UserId, a: ArtifactId, v: int)
    requires r !in w.drops
    ensures Run(w, cfg, [BeginDelete(r, u, a, v), FinishDrop(r)]) == w.(db := After(w.db, DeleteVersion(w.db, u, a, v)))
  {
    TwoSteps(w, cfg, BeginDelete(r, u, a, v), FinishDrop(r));
    if OwnedByUser(w.db, u, a) {
      assert w.drops[r := Deleting(a, v, w.db.artifacts[a].version, |w.wins|)] - {r} == w.drops;
      if VersionKey(a, v) !in w.db.versions { assert w.db.versions - {VersionKey(a, v)} == w.db.versions; }
    }
  }
}
