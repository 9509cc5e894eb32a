/**
 The full refresh on top of the queue: a parent enqueues one child per INN group, batch by batch,
 and waits on a progress counter that the finish script of every child adds to. Conservation of
 that counter is what makes the wait exact, the summary right and the queue short.
 */
module FullRefresh {
  import opened Options
  import opened JobStore
  import opened JobProtocol
  import opened ChildWeights
  import opened QueueInvariant

  // ---- the invariant ----

  /** The status counters say what the jobs of the list say. */
  ghost predicate CountsOk(progress: Progress, parent: JobId, jobs: seq<Job>) {
    forall status | Terminal(status) :: CountOf(progress, status) == Total(SettledWeight(parent, status), jobs)
  }

  /** The counters of a parent say what all its children say; one that never began has counted nothing. */
  ghost predicate Counted(s: Store, sessions: map<JobId, Session>, parent: JobId) {
    && CountsOk(ProgressOf(s, parent), parent, s.jobs)
    && (parent in sessions || ProgressOf(s, parent).processed == 0)
  }

  /** Children belong to a session, and so do their keys. */
  ghost predicate ChildOk(w: World, j: JobId)
    requires j < |w.store.jobs|
  {
    var job := w.store.jobs[j];
    && (job.parent.Some? ==> job.parent.value in w.sessions)
    && (job.key.RefreshItem? ==> job.parent == Some(job.key.parent))
  }

  predicate Reached(session: Session, inn: string) {
    exists k :: 0 <= k < session.queued <= |session.groups| && session.groups[k].inn == inn
  }

  /** The keys of children are the INNs the session has reached. */
  ghost predicate KeysReached(jobs: seq<Job>, p: JobId, session: Session) {
    forall j | 0 <= j < |jobs| && jobs[j].parent == Some(p) && jobs[j].key.RefreshItem? ::
      Reached(session, jobs[j].key.itemInn)
  }

  ghost predicate Childless(p: JobId, jobs: seq<Job>) {
    forall j | 0 <= j < |jobs| :: jobs[j].parent != Some(p)
  }

  /** The jobs before an attempt that found no live child stay as it found them. */
  ghost predicate StaysFound(before: seq<Job>, p: JobId, found: Found) {
    CountsOk(found.progress, p, before) && Total(LiveCount(p), before) == 0
  }

  /** Its own children are what it enqueued, at most one batch of them is live, and `processed` is what ended. */
  ghost predicate Weighs(own: seq<Job>, processed: int, p: JobId, session: Session)
    requires session.queued <= |session.groups|
  {
    && Total(EndedWeight(p), own) == processed
    && Total(EnqueuedWeight(p), own) == SumSizes(session.groups[..session.queued])
    && Total(LiveCount(p), own) <= session.queued - session.batchStart
  }

  ghost predicate OwnsBatch(before: seq<Job>, own: seq<Job>, processed: int, p: JobId, session: Session)
    requires session.queued <= |session.groups|
  {
    StaysFound(before, p, session.found) && Weighs(own, processed, p, session) && KeysReached(own, p, session)
  }

  ghost predicate ShapeOk(c: Settings, session: Session) {
    && DistinctInns(session.groups)
    && (forall k | 0 <= k < |session.groups| :: session.groups[k].size >= 1)
    && session.batchStart <= session.queued <= BatchEnd(c, session)
    && session.attempt >= 1
  }

  ghost predicate SessionOk(c: Settings, jobs: seq<Job>, processed: int, p: JobId, session: Session) {
    && ShapeOk(c, session)
    && session.found.jobs <= |jobs|
    && (session.attempt == 1 ==> session.found.live == {} && Childless(p, jobs[..session.found.jobs]))
    && (session.found.live == {} ==>
          OwnsBatch(jobs[..session.found.jobs], jobs[session.found.jobs..], processed, p, session))
  }

  ghost predicate ParentOk(c: Settings, w: World, p: JobId)
    requires p in w.sessions
  {
    SessionOk(c, w.store.jobs, ProgressOf(w.store, p).processed, p, w.sessions[p])
  }

  ghost predicate RefreshInv(c: Settings, w: World) {
    && (forall p :: Counted(w.store, w.sessions, p))
    && (forall j | 0 <= j < |w.store.jobs| :: ChildOk(w, j))
    && (forall p | p in w.sessions :: ParentOk(c, w, p))
  }

  // ---- kept by every action ----

  lemma AlikeCounts(progress: Progress, p: JobId, jobs: seq<Job>, jobs': seq<Job>)
    requires CountsOk(progress, p, jobs) && AllAlike(jobs, jobs')
    ensures CountsOk(progress, p, jobs')
  {
    forall status | Terminal(status)
      ensures Total(SettledWeight(p, status), jobs') == Total(SettledWeight(p, status), jobs)
    {
      AlikeTotal(SettledWeight(p, status), jobs, jobs');
    }
  }

  lemma AlikeKeepsSession(
    c: Settings, jobs: seq<Job>, jobs': seq<Job>, processed: int, p: JobId, session: Session)
    requires SessionOk(c, jobs, processed, p, session) && AllAlike(jobs, jobs')
    ensures SessionOk(c, jobs', processed, p, session)
  {
    var n := session.found.jobs;
    assert AllAlike(jobs[..n], jobs'[..n]) && AllAlike(jobs[n..], jobs'[n..]);
    if session.found.live == {} {
      AlikeCounts(session.found.progress, p, jobs[..n], jobs'[..n]);
      AlikeTotal(LiveCount(p), jobs[..n], jobs'[..n]);
      AlikeOwn(p, jobs[n..], jobs'[n..]);
    }
  }

  lemma AlikeOwn(p: JobId, own: seq<Job>, own': seq<Job>)
    requires AllAlike(own, own')
    ensures Total(EnqueuedWeight(p), own') == Total(EnqueuedWeight(p), own)
    ensures Total(LiveCount(p), own') == Total(LiveCount(p), own)
    ensures Total(EndedWeight(p), own') == Total(EndedWeight(p), own)
  {
    AlikeTotal(EnqueuedWeight(p), own, own');
    AlikeTotal(LiveCount(p), own, own');
    AlikeTotal(EndedWeight(p), own, own');
  }

  lemma AlikeKeeps(c: Settings, w: World, w': World)
    requires RefreshInv(c, w) && AllAlike(w.store.jobs, w'.store.jobs)
    requires w'.store.progress == w.store.progress && w'.sessions == w.sessions
    ensures RefreshInv(c, w')
  {
    forall p
      ensures Counted(w'.store, w'.sessions, p)
    {
      assert Counted(w.store, w.sessions, p);
      AlikeCounts(ProgressOf(w.store, p), p, w.store.jobs, w'.store.jobs);
    }
    forall j | 0 <= j < |w'.store.jobs|
      ensures ChildOk(w', j)
    {
      assert ChildOk(w, j) && Alike(w.store.jobs[j], w'.store.jobs[j]);
    }
    forall p | p in w'.sessions
      ensures ParentOk(c, w', p)
    {
      assert ParentOk(c, w, p);
      AlikeKeepsSession(c, w.store.jobs, w'.store.jobs, ProgressOf(w.store, p).processed, p, w.sessions[p]);
    }
  }

  lemma ReclaimAlike(s: Store, j: JobId, claimed: Option<EntryId>, message: string)
    requires j < |s.jobs| && Live(s.jobs[j])
    ensures AllAlike(s.jobs, Reclaim(s, j, claimed, message).jobs)
  {
  }

  lemma RecoverAlike(s: Store, j: JobId, claimed: Option<EntryId>, message: string)
    ensures AllAlike(s.jobs, AfterRecover(s, j, claimed, message).jobs)
  {
    if j < |s.jobs| && Live(s.jobs[j]) {
      ReclaimAlike(s, j, claimed, message);
    }
  }

  // ---- a child is settled ----

  /** `job` is `settled` before its end. */
  predicate Settling(job: Job, settled: Job) {
    && Live(job) && Terminal(settled.status)
    && settled.parent == job.parent && settled.progressWeight == job.progressWeight && settled.key == job.key
  }

  /** The settled job adds its weight to the counter of its status, and to no other. */
  lemma SettlingCounts(progress: Progress, p: JobId, jobs: seq<Job>, j: JobId, settled: Job)
    requires CountsOk(progress, p, jobs) && j < |jobs| && Settling(jobs[j], settled)
    ensures settled.parent != Some(p) ==> CountsOk(progress, p, jobs[j := settled])
    ensures settled.parent == Some(p) ==>
              CountsOk(Bump(progress, settled.status, EffectiveWeight(settled.progressWeight)), p, jobs[j := settled])
  {
    forall status | Terminal(status)
      ensures Total(SettledWeight(p, status), jobs[j := settled])
              == Total(SettledWeight(p, status), jobs) + Weigh(SettledWeight(p, status), settled)
    {
      TotalUpdate(SettledWeight(p, status), jobs, j, settled);
    }
  }

  lemma ProgressOfFinish(s: Store, s': Store, job: Job, status: Status, p: JobId)
    requires s'.progress == ProgressAfter(s, job, status)
    ensures ProgressOf(s', p) == if job.parent == Some(p)
                                 then Bump(ProgressOf(s, p), status, EffectiveWeight(job.progressWeight))
                                 else ProgressOf(s, p)
  {
  }

  lemma FinishCounts(s: Store, s': Store, sessions: map<JobId, Session>, j: JobId, settled: Job, p: JobId)
    requires Counted(s, sessions, p) && j < |s.jobs| && Settling(s.jobs[j], settled)
    requires s.jobs[j].parent.Some? ==> s.jobs[j].parent.value in sessions
    requires s'.jobs == s.jobs[j := settled] && s'.progress == ProgressAfter(s, s.jobs[j], settled.status)
    ensures Counted(s', sessions, p)
  {
    ProgressOfFinish(s, s', s.jobs[j], settled.status, p);
    SettlingCounts(ProgressOf(s, p), p, s.jobs, j, settled);
  }

  /** What the end of the job adds to `processed` of the parent. */
  function Share(p: JobId, settled: Job): nat {
    if settled.parent == Some(p) then EffectiveWeight(settled.progressWeight) else 0
  }

  /** No child is left live in a list without live children, so the job that ends is another parent's. */
  lemma SettlingAmongSettled(p: JobId, jobs: seq<Job>, j: JobId)
    requires Total(LiveCount(p), jobs) == 0 && j < |jobs| && Live(jobs[j])
    ensures jobs[j].parent != Some(p)
  {
    LiveCountIsCardinality(p, jobs);
    assert j !in LiveChildren(p, jobs);
  }

  lemma SettlingBefore(
    before: seq<Job>, own: seq<Job>, processed: int, p: JobId, session: Session, j: JobId, settled: Job)
    requires session.queued <= |session.groups| && OwnsBatch(before, own, processed, p, session)
    requires j < |before| && Settling(before[j], settled)
    ensures OwnsBatch(before[j := settled], own, processed, p, session) && Share(p, settled) == 0
  {
    SettlingAmongSettled(p, before, j);
    SettlingCounts(session.found.progress, p, before, j, settled);
    TotalUpdate(LiveCount(p), before, j, settled);
  }

  lemma SettlingOwn(
    before: seq<Job>, own: seq<Job>, processed: int, p: JobId, session: Session, j: JobId, settled: Job)
    requires session.queued <= |session.groups| && OwnsBatch(before, own, processed, p, session)
    requires j < |own| && Settling(own[j], settled)
    ensures OwnsBatch(before, own[j := settled], processed + Share(p, settled), p, session)
  {
    TotalUpdate(EnqueuedWeight(p), own, j, settled);
    TotalUpdate(LiveCount(p), own, j, settled);
    TotalUpdate(EndedWeight(p), own, j, settled);
  }

  lemma SettlingKeepsSession(
    c: Settings, jobs: seq<Job>, processed: int, j: JobId, settled: Job, p: JobId, session: Session)
    requires SessionOk(c, jobs, processed, p, session) && j < |jobs| && Settling(jobs[j], settled)
    ensures SessionOk(c, jobs[j := settled], processed + Share(p, settled), p, session)
  {
    var n := session.found.jobs;
    UpdateAround(jobs, n, j, settled);
    if session.found.live == {} {
      if j < n {
        SettlingBefore(jobs[..n], jobs[n..], processed, p, session, j, settled);
      } else {
        SettlingOwn(jobs[..n], jobs[n..], processed, p, session, j - n, settled);
      }
    }
  }

  lemma FinishKeepsRefresh(
    c: Settings, w: World, j: JobId, t: Token, status: Status, result: Option<string>, message: Option<string>)
    requires RefreshInv(c, w)
    ensures RefreshInv(c, Next(c, w, Finish(j, t, status, result, message)))
  {
    var w' := Next(c, w, Finish(j, t, status, result, message));
    if FinishSucceeds(w.store, j, t, status) {
      assert ChildOk(w, j);
      forall p
        ensures Counted(w'.store, w'.sessions, p)
      {
        FinishCounts(w.store, w'.store, w.sessions, j, w'.store.jobs[j], p);
      }
      forall i | 0 <= i < |w'.store.jobs|
        ensures ChildOk(w', i)
      {
        assert ChildOk(w, i);
      }
      forall p | p in w'.sessions
        ensures ParentOk(c, w', p)
      {
        assert ParentOk(c, w, p);
        ProgressOfFinish(w.store, w'.store, w.store.jobs[j], status, p);
        SettlingKeepsSession(
          c, w.store.jobs, ProgressOf(w.store, p).processed, j, w'.store.jobs[j], p, w.sessions[p]);
      }
    }
  }

  // ---- jobs are added ----

  /** A new job is queued, so it has no settled weight. */
  lemma NewJobCounts(progress: Progress, p: JobId, jobs: seq<Job>, job: Job)
    requires CountsOk(progress, p, jobs) && Live(job)
    ensures CountsOk(progress, p, jobs + [job])
  {
    forall status | Terminal(status)
      ensures Total(SettledWeight(p, status), jobs + [job]) == Total(SettledWeight(p, status), jobs)
    {
      TotalAppend(SettledWeight(p, status), jobs, job);
    }
  }

  lemma OtherJobKeepsSession(
    c: Settings, jobs: seq<Job>, processed: int, job: Job, p: JobId, session: Session)
    requires SessionOk(c, jobs, processed, p, session) && job.parent != Some(p)
    ensures SessionOk(c, jobs + [job], processed, p, session)
  {
    var n := session.found.jobs;
    AppendAround(jobs, n, job);
    TotalAppend(EnqueuedWeight(p), jobs[n..], job);
    TotalAppend(LiveCount(p), jobs[n..], job);
    TotalAppend(EndedWeight(p), jobs[n..], job);
  }

  lemma PublicJobKeepsRefresh(c: Settings, w: World, r: Request)
    requires RefreshInv(c, w) && PublicRequest(r)
    ensures RefreshInv(c, w.(store := InsertJob(w.store, r)))
  {
    var w' := w.(store := InsertJob(w.store, r));
    var job := NewJob(r, w.store.now);
    forall p
      ensures Counted(w'.store, w'.sessions, p)
    {
      assert Counted(w.store, w.sessions, p);
      NewJobCounts(ProgressOf(w.store, p), p, w.store.jobs, job);
    }
    forall j | 0 <= j < |w'.store.jobs|
      ensures ChildOk(w', j)
    {
      assert j < |w.store.jobs| ==> ChildOk(w, j);
    }
    forall p | p in w'.sessions
      ensures ParentOk(c, w', p)
    {
      assert ParentOk(c, w, p);
      OtherJobKeepsSession(c, w.store.jobs, ProgressOf(w.store, p).processed, job, p, w.sessions[p]);
    }
  }

  lemma PublicEnqueueKeepsRefresh(c: Settings, w: World, r: Request)
    requires RefreshInv(c, w) && PublicRequest(r)
    ensures RefreshInv(c, Next(c, w, Enqueue(r)))
  {
    if Duplicates(w.store, r) || OverCap(w.store, c.maxActiveJobs, r) {
      AlikeKeeps(c, w, Next(c, w, Enqueue(r)));
    } else {
      var purged := w.(store := Purged(w.store, r));
      AlikeKeeps(c, w, purged);
      PublicJobKeepsRefresh(c, purged, r);
    }
  }

  /** The store right before the insertion: stale key and lapsed slots are gone. */
  function Purged(s: Store, r: Request): Store {
    PurgeSlots(s.(dedupe := s.dedupe - {r.key}), r)
  }

  lemma SumSizesNext(groups: seq<Group>, k: nat)
    requires k < |groups|
    ensures SumSizes(groups[..k + 1]) == SumSizes(groups[..k]) + groups[k].size
  {
    assert groups[..k + 1][..k] == groups[..k];
  }

  function NextChild(w: World, p: JobId): Request
    requires p in w.sessions && w.sessions[p].queued < |w.sessions[p].groups|
  {
    ChildRequest(p, w.sessions[p].groups[w.sessions[p].queued])
  }

  /** A live child of an attempt that found none is one of its own, so its INN has been reached. */
  lemma LiveChildIsOwn(c: Settings, jobs: seq<Job>, processed: int, p: JobId, session: Session, j: JobId)
    requires SessionOk(c, jobs, processed, p, session) && session.found.live == {}
    requires j < |jobs| && Live(jobs[j]) && jobs[j].parent == Some(p) && jobs[j].key.RefreshItem?
    ensures Reached(session, jobs[j].key.itemInn)
  {
    var n := session.found.jobs;
    if j < n {
      SettlingAmongSettled(p, jobs[..n], j);
    } else {
      assert jobs[n..][j - n] == jobs[j];
    }
  }

  /** The key of the next child is free if the attempt found no live child: its own took other INNs. */
  lemma NextKeyIsFree(c: Settings, w: World, p: JobId)
    requires DedupeMatchesLive(w.store) && RefreshInv(c, w) && Enabled(c, w, EnqueueChild(p))
    requires w.sessions[p].found.live == {}
    ensures NextChild(w, p).key !in w.store.dedupe
  {
    var key := NextChild(w, p).key;
    if key in w.store.dedupe {
      assert ChildOk(w, w.store.dedupe[key]) && ParentOk(c, w, p);
      LiveChildIsOwn(
        c, w.store.jobs, ProgressOf(w.store, p).processed, p, w.sessions[p], w.store.dedupe[key]);
    }
  }

  /** Either the child is inserted, or an earlier attempt left a live one under its key. */
  lemma ChildIsInserted(c: Settings, w: World, p: JobId)
    requires DedupeMatchesLive(w.store) && Enabled(c, w, EnqueueChild(p))
    ensures if NextChild(w, p).key in w.store.dedupe
            then AllAlike(w.store.jobs, NextStore(c, w, EnqueueChild(p)).jobs)
                 && NextStore(c, w, EnqueueChild(p)).progress == w.store.progress
            else NextStore(c, w, EnqueueChild(p)) == InsertJob(w.store, NextChild(w, p))
  {
    var key := NextChild(w, p).key;
    if key !in w.store.dedupe {
      assert w.store.dedupe - {key} == w.store.dedupe;
    }
  }

  lemma ChildKeepsKeys(own: seq<Job>, p: JobId, session: Session, now: Time)
    requires session.queued < |session.groups| && KeysReached(own, p, session)
    ensures var child := NewJob(ChildRequest(p, session.groups[session.queued]), now);
            KeysReached(own + [child], p, session.(queued := session.queued + 1))
  {
    var next := session.(queued := session.queued + 1);
    var own' := own + [NewJob(ChildRequest(p, session.groups[session.queued]), now)];
    forall j | 0 <= j < |own'| && own'[j].parent == Some(p) && own'[j].key.RefreshItem?
      ensures Reached(next, own'[j].key.itemInn)
    {
      if j < |own| {
        assert own'[j] == own[j] && Reached(session, own[j].key.itemInn);
        var k :| 0 <= k < session.queued && session.groups[k].inn == own[j].key.itemInn;
        assert next.groups[k].inn == own[j].key.itemInn;
      } else {
        assert next.groups[session.queued].inn == own'[j].key.itemInn;
      }
    }
  }

  lemma ChildTotals(own: seq<Job>, p: JobId, group: Group, now: Time)
    requires group.size >= 1
    ensures var grown := own + [NewJob(ChildRequest(p, group), now)];
            && Total(EnqueuedWeight(p), grown) == Total(EnqueuedWeight(p), own) + group.size
            && Total(LiveCount(p), grown) == Total(LiveCount(p), own) + 1
            && Total(EndedWeight(p), grown) == Total(EndedWeight(p), own)
  {
    var child := NewJob(ChildRequest(p, group), now);
    TotalAppend(EnqueuedWeight(p), own, child);
    TotalAppend(LiveCount(p), own, child);
    TotalAppend(EndedWeight(p), own, child);
  }

  lemma ChildWeighs(own: seq<Job>, processed: int, p: JobId, session: Session, now: Time)
    requires session.queued < |session.groups| && Weighs(own, processed, p, session)
    requires session.groups[session.queued].size >= 1
    ensures var child := NewJob(ChildRequest(p, session.groups[session.queued]), now);
            Weighs(own + [child], processed, p, session.(queued := session.queued + 1))
  {
    ChildTotals(own, p, session.groups[session.queued], now);
    SumSizesNext(session.groups, session.queued);
  }

  lemma OwnChild(before: seq<Job>, own: seq<Job>, processed: int, p: JobId, session: Session, now: Time)
    requires session.queued < |session.groups| && OwnsBatch(before, own, processed, p, session)
    requires session.groups[session.queued].size >= 1
    ensures var child := NewJob(ChildRequest(p, session.groups[session.queued]), now);
            OwnsBatch(before, own + [child], processed, p, session.(queued := session.queued + 1))
  {
    ChildWeighs(own, processed, p, session, now);
    ChildKeepsKeys(own, p, session, now);
  }

  lemma ChildKeepsSession(c: Settings, jobs: seq<Job>, processed: int, p: JobId, session: Session, now: Time)
    requires SessionOk(c, jobs, processed, p, session) && session.queued < BatchEnd(c, session)
    ensures var child := NewJob(ChildRequest(p, session.groups[session.queued]), now);
            SessionOk(c, jobs + [child], processed, p, session.(queued := session.queued + 1))
  {
    var n := session.found.jobs;
    AppendAround(jobs, n, NewJob(ChildRequest(p, session.groups[session.queued]), now));
    if session.found.live == {} {
      OwnChild(jobs[..n], jobs[n..], processed, p, session, now);
    }
  }

  /** An attempt that found a live child is owed no more than its shape. */
  lemma DuplicateKeepsSession(
    c: Settings, jobs: seq<Job>, jobs': seq<Job>, processed: int, p: JobId, session: Session)
    requires SessionOk(c, jobs, processed, p, session) && session.queued < BatchEnd(c, session)
    requires session.found.live != {} && |jobs'| == |jobs|
    ensures SessionOk(c, jobs', processed, p, session.(queued := session.queued + 1))
  {
  }

  lemma QueuedParentOk(c: Settings, w: World, p: JobId)
    requires Enabled(c, w, EnqueueChild(p))
    requires NextStore(c, w, EnqueueChild(p)).progress == w.store.progress
    requires SessionOk(c, NextStore(c, w, EnqueueChild(p)).jobs, ProgressOf(w.store, p).processed, p,
                       w.sessions[p].(queued := w.sessions[p].queued + 1))
    ensures ParentOk(c, Next(c, w, EnqueueChild(p)), p)
  {
  }

  lemma InsertedKeepsParent(c: Settings, w: World, p: JobId)
    requires Enabled(c, w, EnqueueChild(p)) && ParentOk(c, w, p)
    requires NextStore(c, w, EnqueueChild(p)) == InsertJob(w.store, NextChild(w, p))
    ensures ParentOk(c, Next(c, w, EnqueueChild(p)), p)
  {
    ChildKeepsSession(c, w.store.jobs, ProgressOf(w.store, p).processed, p, w.sessions[p], w.store.now);
    QueuedParentOk(c, w, p);
  }

  lemma DuplicateKeepsParent(c: Settings, w: World, p: JobId)
    requires Enabled(c, w, EnqueueChild(p)) && ParentOk(c, w, p) && w.sessions[p].found.live != {}
    requires AllAlike(w.store.jobs, NextStore(c, w, EnqueueChild(p)).jobs)
    requires NextStore(c, w, EnqueueChild(p)).progress == w.store.progress
    ensures ParentOk(c, Next(c, w, EnqueueChild(p)), p)
  {
    var jobs' := NextStore(c, w, EnqueueChild(p)).jobs;
    DuplicateKeepsSession(c, w.store.jobs, jobs', ProgressOf(w.store, p).processed, p, w.sessions[p]);
    QueuedParentOk(c, w, p);
  }

  lemma EnqueueChildKeepsParent(c: Settings, w: World, p: JobId)
    requires DedupeMatchesLive(w.store) && RefreshInv(c, w) && Enabled(c, w, EnqueueChild(p))
    ensures ParentOk(c, Next(c, w, EnqueueChild(p)), p)
  {
    ChildIsInserted(c, w, p);
    assert ParentOk(c, w, p);
    if NextChild(w, p).key !in w.store.dedupe {
      InsertedKeepsParent(c, w, p);
    } else {
      if w.sessions[p].found.live == {} {
        NextKeyIsFree(c, w, p);
      }
      DuplicateKeepsParent(c, w, p);
    }
  }

  lemma EnqueueChildKeepsOthers(c: Settings, w: World, p: JobId, q: JobId)
    requires DedupeMatchesLive(w.store) && RefreshInv(c, w) && Enabled(c, w, EnqueueChild(p))
    requires q in w.sessions && q != p
    ensures ParentOk(c, Next(c, w, EnqueueChild(p)), q)
  {
    var jobs, jobs' := w.store.jobs, NextStore(c, w, EnqueueChild(p)).jobs;
    var processed := ProgressOf(w.store, q).processed;
    ChildIsInserted(c, w, p);
    assert ParentOk(c, w, q);
    if NextChild(w, p).key !in w.store.dedupe {
      OtherJobKeepsSession(c, jobs, processed, NewJob(NextChild(w, p), w.store.now), q, w.sessions[q]);
    } else {
      AlikeKeepsSession(c, jobs, jobs', processed, q, w.sessions[q]);
    }
  }

  lemma EnqueueChildCounts(c: Settings, w: World, p: JobId, q: JobId)
    requires DedupeMatchesLive(w.store) && RefreshInv(c, w) && Enabled(c, w, EnqueueChild(p))
    ensures Counted(NextStore(c, w, EnqueueChild(p)), Next(c, w, EnqueueChild(p)).sessions, q)
  {
    ChildIsInserted(c, w, p);
    assert Counted(w.store, w.sessions, q);
    if NextChild(w, p).key in w.store.dedupe {
      AlikeCounts(ProgressOf(w.store, q), q, w.store.jobs, NextStore(c, w, EnqueueChild(p)).jobs);
    } else {
      NewJobCounts(ProgressOf(w.store, q), q, w.store.jobs, NewJob(NextChild(w, p), w.store.now));
    }
  }

  lemma EnqueueChildKeepsChildren(c: Settings, w: World, p: JobId, j: JobId)
    requires DedupeMatchesLive(w.store) && RefreshInv(c, w) && Enabled(c, w, EnqueueChild(p))
    requires j < |Next(c, w, EnqueueChild(p)).store.jobs|
    ensures ChildOk(Next(c, w, EnqueueChild(p)), j)
  {
    ChildIsInserted(c, w, p);
    if j < |w.store.jobs| {
      assert ChildOk(w, j);
      if NextChild(w, p).key in w.store.dedupe {
        assert Alike(w.store.jobs[j], NextStore(c, w, EnqueueChild(p)).jobs[j]);
      }
    }
  }

  lemma EnqueueChildKeepsRefresh(c: Settings, w: World, p: JobId)
    requires DedupeMatchesLive(w.store) && RefreshInv(c, w) && Enabled(c, w, EnqueueChild(p))
    ensures RefreshInv(c, Next(c, w, EnqueueChild(p)))
  {
    var w' := Next(c, w, EnqueueChild(p));
    forall q
      ensures Counted(w'.store, w'.sessions, q)
    {
      EnqueueChildCounts(c, w, p, q);
    }
    forall j | 0 <= j < |w'.store.jobs|
      ensures ChildOk(w', j)
    {
      EnqueueChildKeepsChildren(c, w, p, j);
    }
    forall q | q in w'.sessions
      ensures ParentOk(c, w', q)
    {
      if q == p {
        EnqueueChildKeepsParent(c, w, p);
      } else {
        EnqueueChildKeepsOthers(c, w, p, q);
      }
    }
  }

  // ---- the parent begins, and polls ----

  lemma NewParentIsChildless(c: Settings, w: World, p: JobId)
    requires RefreshInv(c, w) && p !in w.sessions
    ensures Childless(p, w.store.jobs) && LiveChildren(p, w.store.jobs) == {}
  {
    forall j | 0 <= j < |w.store.jobs|
      ensures w.store.jobs[j].parent != Some(p)
    {
      assert ChildOk(w, j);
    }
  }

  lemma BeginKeepsSession(c: Settings, w: World, p: JobId, groups: seq<Group>)
    requires RefreshInv(c, w) && Enabled(c, w, BeginRefresh(p, groups))
    ensures SessionOk(c, w.store.jobs, 0, p, BeginSession(w, p, groups))
  {
    var jobs := w.store.jobs;
    assert jobs[..|jobs|] == jobs && jobs[|jobs|..] == [];
    assert Counted(w.store, w.sessions, p);
    LiveCountIsCardinality(p, jobs);
    if p in w.sessions {
      assert ParentOk(c, w, p);
    } else {
      NewParentIsChildless(c, w, p);
    }
  }

  lemma BeginCounts(s: Store, sessions: map<JobId, Session>, p: JobId, begun: Session, total: int, q: JobId)
    requires Counted(s, sessions, q)
    ensures Counted(AfterInitProgress(s, p, total), sessions[p := begun], q)
  {
    assert ProgressOf(AfterInitProgress(s, p, total), q).counts == ProgressOf(s, q).counts;
  }

  lemma BeginKeepsRefresh(c: Settings, w: World, p: JobId, groups: seq<Group>)
    requires RefreshInv(c, w) && Enabled(c, w, BeginRefresh(p, groups))
    ensures RefreshInv(c, Next(c, w, BeginRefresh(p, groups)))
  {
    var w' := Next(c, w, BeginRefresh(p, groups));
    forall j | 0 <= j < |w.store.jobs|
      ensures ChildOk(w', j)
    {
      assert ChildOk(w, j);
    }
    forall q
      ensures Counted(w'.store, w'.sessions, q)
    {
      BeginCounts(w.store, w.sessions, p, BeginSession(w, p, groups), SumSizes(groups), q);
    }
    BeginKeepsSession(c, w, p, groups);
    forall q | q in w'.sessions
      ensures ParentOk(c, w', q)
    {
      assert q != p ==> ParentOk(c, w, q);
    }
  }

  /** The children of the current attempt. */
  function OwnJobs(w: World, p: JobId): seq<Job>
    requires p in w.sessions && w.sessions[p].found.jobs <= |w.store.jobs|
  {
    w.store.jobs[w.sessions[p].found.jobs..]
  }

  /** Beside what was found, a counter says what the children of the attempt say. */
  lemma CounterIsOwn(c: Settings, w: World, p: JobId, status: Status)
    requires RefreshInv(c, w) && p in w.sessions && w.sessions[p].found.live == {} && Terminal(status)
    ensures w.sessions[p].found.jobs <= |w.store.jobs|
    ensures CountOf(ProgressOf(w.store, p), status)
            == CountOf(w.sessions[p].found.progress, status) + Total(SettledWeight(p, status), OwnJobs(w, p))
  {
    assert Counted(w.store, w.sessions, p) && ParentOk(c, w, p);
    TotalAround(SettledWeight(p, status), w.store.jobs, w.sessions[p].found.jobs);
  }

  lemma LiveAreOwn(c: Settings, w: World, p: JobId)
    requires RefreshInv(c, w) && p in w.sessions && w.sessions[p].found.live == {}
    ensures w.sessions[p].found.jobs <= |w.store.jobs|
    ensures |LiveChildren(p, w.store.jobs)| == Total(LiveCount(p), OwnJobs(w, p))
  {
    assert ParentOk(c, w, p);
    TotalAround(LiveCount(p), w.store.jobs, w.sessions[p].found.jobs);
    LiveCountIsCardinality(p, w.store.jobs);
  }

  /**
   In an attempt that found no live child, the poll lets the parent go on exactly when no child is left live; the
   counter is then exactly what it enqueued.
   */
  lemma SettledBatchIsExact(c: Settings, w: World, p: JobId)
    requires RefreshInv(c, w) && p in w.sessions && w.sessions[p].queued <= |w.sessions[p].groups|
    requires w.sessions[p].found.live == {}
    ensures BatchSettled(w.store, p, w.sessions[p]) <==> LiveChildren(p, w.store.jobs) == {}
    ensures BatchSettled(w.store, p, w.sessions[p]) ==>
              ProgressOf(w.store, p).processed == SumSizes(w.sessions[p].groups[..w.sessions[p].queued])
  {
    assert ParentOk(c, w, p);
    LiveAreOwn(c, w, p);
    WeightsSplit(p, OwnJobs(w, p));
    if LiveChildren(p, w.store.jobs) == {} {
      NoLiveNoWeight(p, OwnJobs(w, p));
    }
  }

  lemma {:induction false} NoLiveNoWeight(p: JobId, jobs: seq<Job>)
    requires Total(LiveCount(p), jobs) == 0
    ensures Total(LiveWeight(p), jobs) == 0
  {
    if jobs != [] {
      NoLiveNoWeight(p, jobs[..|jobs| - 1]);
    }
  }

  lemma PollKeepsRefresh(c: Settings, w: World, p: JobId)
    requires RefreshInv(c, w) && Enabled(c, w, PollProgress(p))
    ensures RefreshInv(c, Next(c, w, PollProgress(p)))
  {
    var w' := Next(c, w, PollProgress(p));
    PollKeepsSession(c, w, p);
    forall q
      ensures Counted(w'.store, w'.sessions, q)
    {
      assert Counted(w.store, w.sessions, q);
    }
    forall j | 0 <= j < |w'.store.jobs|
      ensures ChildOk(w', j)
    {
      assert ChildOk(w, j);
    }
    forall q | q in w'.sessions
      ensures ParentOk(c, w', q)
    {
      assert q != p ==> ParentOk(c, w, q);
    }
  }

  lemma PollKeepsSession(c: Settings, w: World, p: JobId)
    requires RefreshInv(c, w) && Enabled(c, w, PollProgress(p))
    ensures p in Next(c, w, PollProgress(p)).sessions
    ensures ParentOk(c, Next(c, w, PollProgress(p)), p)
  {
    var session := w.sessions[p];
    assert ParentOk(c, w, p);
    if BatchSettled(w.store, p, session) && session.found.live == {} {
      SettledBatchIsExact(c, w, p);
      LiveAreOwn(c, w, p);
      PolledKeepsKeys(w.store.jobs[session.found.jobs..], p, session);
    }
  }

  lemma PolledKeepsKeys(own: seq<Job>, p: JobId, session: Session)
    requires KeysReached(own, p, session)
    ensures KeysReached(own, p, session.(batchStart := session.queued))
  {
    var polled := session.(batchStart := session.queued);
    forall j | 0 <= j < |own| && own[j].parent == Some(p) && own[j].key.RefreshItem?
      ensures Reached(polled, own[j].key.itemInn)
    {
      var k :| 0 <= k < session.queued <= |session.groups| && session.groups[k].inn == own[j].key.itemInn;
      assert polled.groups[k].inn == own[j].key.itemInn;
    }
  }

  /** The actions that move jobs around without settling or adding one. */
  predicate MovesJobsAround(a: Action) {
    !a.Enqueue? && !a.EnqueueChild? && !a.BeginRefresh? && !a.PollProgress? && !a.Finish?
  }

  lemma StepIsAlike(c: Settings, w: World, a: Action)
    requires Enabled(c, w, a) && MovesJobsAround(a)
    ensures AllAlike(w.store.jobs, Next(c, w, a).store.jobs)
    ensures Next(c, w, a).store.progress == w.store.progress && Next(c, w, a).sessions == w.sessions
  {
    if Returns(a) {
      ReturnIsAlike(c, w, a);
    }
  }

  lemma ReturnIsAlike(c: Settings, w: World, a: Action)
    requires Enabled(c, w, a) && Returns(a)
    ensures AllAlike(w.store.jobs, NextStore(c, w, a).jobs) && NextStore(c, w, a).progress == w.store.progress
  {
    var s := w.store;
    match a
    case RecoverEntry(e) => RecoverAlike(s, s.log[e].job, Some(e), RECOVER_MESSAGE);
    case RecoverExpired(j) => RecoverAlike(s, j, None, RECOVER_MESSAGE);
    case Retry(_, _, _) => GiveBackIsAlike(c, w, a);
    case Cancel(_, _) => GiveBackIsAlike(c, w, a);
    case _ =>
  }

  lemma GiveBackIsAlike(c: Settings, w: World, a: Action)
    requires Enabled(c, w, a) && (a.Retry? || a.Cancel?)
    ensures AllAlike(w.store.jobs, NextStore(c, w, a).jobs) && NextStore(c, w, a).progress == w.store.progress
  {
    var s := w.store;
    match a
    case Retry(j, _, after) =>
    case Cancel(j, _) =>
  }

  lemma StepKeepsRefresh(c: Settings, w: World, a: Action)
    requires Inv(c, w) && RefreshInv(c, w) && Enabled(c, w, a)
    ensures RefreshInv(c, Next(c, w, a))
  {
    match a
    case Enqueue(r) => PublicEnqueueKeepsRefresh(c, w, r);
    case EnqueueChild(p) => EnqueueChildKeepsRefresh(c, w, p);
    case BeginRefresh(p, groups) => BeginKeepsRefresh(c, w, p, groups);
    case PollProgress(p) => PollKeepsRefresh(c, w, p);
    case Finish(j, t, status, result, message) => FinishKeepsRefresh(c, w, j, t, status, result, message);
    case _ => StepIsAlike(c, w, a); AlikeKeeps(c, w, Next(c, w, a));
  }

  lemma {:induction false} RunKeepsRefresh(c: Settings, w: World, actions: seq<Action>)
    requires Inv(c, w) && RefreshInv(c, w) && ValidRun(c, w, actions)
    ensures RefreshInv(c, Run(c, w, actions))
    decreases |actions|
  {
    if actions != [] {
      StepKeeps(c, w, actions[0]);
      StepKeepsRefresh(c, w, actions[0]);
      RunKeepsRefresh(c, Next(c, w, actions[0]), actions[1..]);
    }
  }
}
