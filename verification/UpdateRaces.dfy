/** When the compare-and-set of update_artifact loses an update, over every interleaving, reassignments
    included (tools.py). */
module UpdateRaces {
  import opened Schema
  import opened Content
  import opened QuotaRaces
  import opened QuotaSafety

  /** No update of a present artifact is lost: its version is the one it was first seen at plus its
      successful updates, and those consumed the base versions from there up, in order, each once. */
  ghost predicate Counted(w: Arena) {
    forall a <- w.db.artifacts :: a in w.first && CountedAt(w, a)
  }

  predicate CountedAt(w: Arena, a: ArtifactId)
    requires a in w.first && a in w.db.artifacts
  {
    && w.db.artifacts[a].version == w.first[a] + |Bases(w.wins, a)|
    && CountsUp(Bases(w.wins, a), w.first[a])
  }

  /** An artifact that was never there has no successful update. */
  ghost predicate WinsKnown(w: Arena) {
    forall a | a !in w.first :: Bases(w.wins, a) == []
  }

  ghost predicate CountInv(w: Arena) { Counted(w) && WinsKnown(w) }

  /** The event commits an update whose base is no longer the artifact's version, and the row of the
      version after its base, which would stop it, is not there. */
  predicate LandsStale(w: Arena, e: Event) {
    && e.CommitUpdate? && e.r in w.pcs && w.pcs[e.r].Cleared? && w.pcs[e.r].job.Updating?
    && var job := w.pcs[e.r].job;
       && job.a in w.db.artifacts && w.db.artifacts[job.a].version != job.base
       && VersionKey(job.a, job.base + 1) !in w.db.versions
  }

  /** Everything but commits of updates and publications leaves versions, wins and the past alone. */
  lemma OthersKeepCount(w: Arena, cfg: Config, e: Event)
    requires CountInv(w) && !e.CommitUpdate? && !e.CommitPublish?
    ensures CountInv(Next(w, cfg, e))
  {
    SameVersions(w, cfg, e);
    var v := Next(w, cfg, e);
    forall a | a in v.db.artifacts ensures a in v.first && CountedAt(v, a) { assert CountedAt(w, a); }
  }

  /** Wins and first versions as they were, and no present artifact at another version. */
  ghost predicate VersionsStay(w: Arena, v: Arena) {
    && v.wins == w.wins && v.first == w.first
    && (forall a <- v.db.artifacts :: a in w.db.artifacts && v.db.artifacts[a].version == w.db.artifacts[a].version)
  }

  lemma SameVersions(w: Arena, cfg: Config, e: Event)
    requires !e.CommitUpdate? && !e.CommitPublish?
    ensures VersionsStay(w, Next(w, cfg, e))
  {
    if Dropping(e) || e.CommitReassign? { DropsSameVersions(w, cfg, e); } else { MovesSameVersions(w, cfg, e); }
  }

  lemma DropsSameVersions(w: Arena, cfg: Config, e: Event)
    requires Dropping(e) || e.CommitReassign?
    ensures VersionsStay(w, Next(w, cfg, e))
  {
  }

  lemma MovesSameVersions(w: Arena, cfg: Config, e: Event)
    requires !Dropping(e) && !e.CommitUpdate? && !e.CommitPublish? && !e.CommitReassign?
    ensures VersionsStay(w, Next(w, cfg, e))
  {
  }

  lemma PublishKeepsCount(w: Arena, r: RequestId, a: ArtifactId)
    requires CountInv(w) && r in w.pcs && w.pcs[r].Cleared? && w.pcs[r].job.Publishing?
    ensures CountInv(StepCommitPublish(w, r, w.pcs[r], a))
  {
    var v := StepCommitPublish(w, r, w.pcs[r], a);
    forall b | b in v.db.artifacts ensures b in v.first && CountedAt(v, b) {
      if b in w.db.artifacts { assert CountedAt(w, b); }
    }
  }

  /** One commit of an update keeps the count exactly when it does not land stale. */
  lemma StaleUpdateExactly(w: Arena, cfg: Config, r: RequestId)
    requires CountInv(w) && r in w.pcs && w.pcs[r].Cleared? && w.pcs[r].job.Updating?
    ensures var v := StepCommitUpdate(w, cfg, r, w.pcs[r]);
            && (Counted(v) <==> !LandsStale(w, CommitUpdate(r)))
            && WinsKnown(v)
  {
    var job := w.pcs[r].job;
    var v := StepCommitUpdate(w, cfg, r, w.pcs[r]);
    if UpdateCommit(w.db, cfg, job.a, job.base, w.pcs[r].row).Commit? {
      assert CountedAt(w, job.a);
      forall a ensures Bases(v.wins, a) == Bases(w.wins, a) + if job.a == a then [job.base] else [] {
        BasesAppend(w.wins, Win(job.a, job.base), a);
      }
      if w.db.artifacts[job.a].version == job.base {
        forall b | b in v.db.artifacts ensures b in v.first && CountedAt(v, b) { assert CountedAt(w, b); }
      } else {
        assert job.a in v.db.artifacts && !CountedAt(v, job.a);
      }
    } else {
      forall b | b in v.db.artifacts ensures b in v.first && CountedAt(v, b) { assert CountedAt(w, b); }
    }
  }

  lemma NextCountsExactly(w: Arena, cfg: Config, e: Event)
    requires CountInv(w)
    ensures Counted(Next(w, cfg, e)) <==> !LandsStale(w, e)
    ensures WinsKnown(Next(w, cfg, e))
  {
    match e
    case CommitUpdate(r) =>
      if r in w.pcs && w.pcs[r].Cleared? && w.pcs[r].job.Updating? { StaleUpdateExactly(w, cfg, r); }
    case CommitPublish(r, a) =>
      if r in w.pcs && w.pcs[r].Cleared? && w.pcs[r].job.Publishing? { PublishKeepsCount(w, r, a); }
    case _ => OthersKeepCount(w, cfg, e);
  }

  ghost predicate AlwaysCounted(w: Arena, cfg: Config, events: seq<Event>)
    decreases |events|
  {
    Counted(w) && (events != [] ==> AlwaysCounted(Next(w, cfg, events[0]), cfg, events[1..]))
  }

  ghost predicate NeverStale(w: Arena, cfg: Config, events: seq<Event>)
    decreases |events|
  {
    events != [] ==> !LandsStale(w, events[0]) && NeverStale(Next(w, cfg, events[0]), cfg, events[1..])
  }

  lemma {:induction false} CountedExactly(w: Arena, cfg: Config, events: seq<Event>)
    requires CountInv(w)
    ensures AlwaysCounted(w, cfg, events) <==> NeverStale(w, cfg, events)
    decreases |events|
  {
    if events != [] {
      var v := Next(w, cfg, events[0]);
      NextCountsExactly(w, cfg, events[0]);
      if LandsStale(w, events[0]) {
        assert !AlwaysCounted(v, cfg, events[1..]);
      } else {
        CountedExactly(v, cfg, events[1..]);
      }
    }
  }

  /** Over every interleaving from any quiet start, reassignments included: no update of any artifact is
      ever lost if and only if no update commits on an artifact that has left its base version while the
      row of the version after its base is absent. */
  lemma UpdatesLostExactly(w: Arena, cfg: Config, events: seq<Event>)
    requires Quiet(w)
    ensures AlwaysCounted(w, cfg, events) <==> NeverStale(w, cfg, events)
  {
    CountedExactly(w, cfg, events);
  }

  /** That takes a reassignment: while an artifact has not been reassigned no update of it lands stale. */
  lemma StaleOnlyAfterReassignment(w: Arena, cfg: Config, events: seq<Event>, e: Event)
    requires Quiet(w) && LandsStale(Run(w, cfg, events), e)
    ensures var v := Run(w, cfg, events); v.pcs[e.r].job.a in v.moved
  {
    QuietUpdates(w);
    RunKeepsUpdates(w, cfg, events);
    var v := Run(w, cfg, events);
    assert ReadOk(v.db.artifacts, v.first, v.moved, v.pcs[e.r]);
  }
}
