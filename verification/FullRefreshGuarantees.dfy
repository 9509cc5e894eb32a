/**
 What the parent of a full refresh may conclude, over every run: its counters are conserved, at most one
 batch of its children is live, and its summary is exact, as long as its attempt began clean.
 */
module FullRefreshGuarantees {
  import opened Options
  import opened JobStore
  import opened JobProtocol
  import opened QueueInvariant
  import opened QueueGuarantees
  import opened ChildWeights
  import opened FullRefresh

  lemma ReachableRefreshInv(c: Settings, w: World)
    requires Reachable(c, w)
    ensures RefreshInv(c, w)
  {
    ReachableIffRun(c, w);
    var actions :| ValidRun(c, START, actions) && Run(c, START, actions) == w;
    assert Inv(c, START);
    assert RefreshInv(c, START);
    RunKeepsRefresh(c, START, actions);
  }

  function CountersSum(progress: Progress): int {
    CountOf(progress, Success) + CountOf(progress, Failed) + CountOf(progress, RateLimited)
    + CountOf(progress, NotFound) + CountOf(progress, Skipped)
  }

  /** A first attempt finds nothing: no live child, no counter, and every child of the parent is its own. */
  lemma FirstAttemptFindsNothing(c: Settings, w: World, p: JobId)
    requires Reachable(c, w) && p in w.sessions
    ensures w.sessions[p].attempt == 1 ==> BeganClean(w.sessions[p])
    ensures w.sessions[p].attempt == 1 ==> CountOf(w.sessions[p].found.progress, Failed) == 0
    ensures w.sessions[p].attempt == 1 ==>
              forall j | 0 <= j < |w.store.jobs| && w.store.jobs[j].parent == Some(p) :: w.sessions[p].found.jobs <= j
  {
    ReachableRefreshInv(c, w);
    assert ParentOk(c, w, p);
    var before := w.store.jobs[..w.sessions[p].found.jobs];
    if w.sessions[p].attempt == 1 {
      forall status | Terminal(status)
        ensures CountOf(w.sessions[p].found.progress, status) == 0
      {
        ChildlessTotal(SettledWeight(p, status), before);
      }
      forall j | 0 <= j < |before|
        ensures w.store.jobs[j].parent != Some(p)
      {
        assert before[j] == w.store.jobs[j];
      }
    }
  }

  /**
   Conservation: every status counter is the weight of the children that ended that way, and `processed` is their
   sum in a first attempt; in a later one it is what they gained, if no child was live when the attempt began.
   */
  lemma ProgressIsConserved(c: Settings, w: World, p: JobId)
    requires Reachable(c, w)
    ensures forall status | Terminal(status) ::
              CountOf(ProgressOf(w.store, p), status) == Total(SettledWeight(p, status), w.store.jobs)
    ensures p in w.sessions && w.sessions[p].found.live == {} ==>
              ProgressOf(w.store, p).processed
              == CountersSum(ProgressOf(w.store, p)) - CountersSum(w.sessions[p].found.progress)
    ensures (p in w.sessions ==> w.sessions[p].attempt == 1) ==>
              ProgressOf(w.store, p).processed == CountersSum(ProgressOf(w.store, p))
  {
    ReachableRefreshInv(c, w);
    assert Counted(w.store, w.sessions, p);
    if p !in w.sessions {
      NewParentIsChildless(c, w, p);
      forall status | Terminal(status)
        ensures CountOf(ProgressOf(w.store, p), status) == 0
      {
        ChildlessTotal(SettledWeight(p, status), w.store.jobs);
      }
    } else {
      FirstAttemptFindsNothing(c, w, p);
      if w.sessions[p].found.live == {} {
        GainIsOwn(c, w, p);
      }
    }
  }

  lemma GainIsOwn(c: Settings, w: World, p: JobId)
    requires RefreshInv(c, w) && p in w.sessions && w.sessions[p].found.live == {}
    ensures ProgressOf(w.store, p).processed
            == CountersSum(ProgressOf(w.store, p)) - CountersSum(w.sessions[p].found.progress)
  {
    assert ParentOk(c, w, p);
    EndedSplit(p, OwnJobs(w, p));
    CounterIsOwn(c, w, p, Success);
    CounterIsOwn(c, w, p, Failed);
    CounterIsOwn(c, w, p, RateLimited);
    CounterIsOwn(c, w, p, NotFound);
    CounterIsOwn(c, w, p, Skipped);
  }

  function BatchBound(c: Settings): nat {
    if c.batchSize < 1 then 1 else c.batchSize
  }

  /** Backpressure: at every moment at most one batch of children is live, if the attempt found none. */
  lemma AtMostOneBatchIsLive(c: Settings, w: World, p: JobId)
    requires Reachable(c, w)
    ensures (p in w.sessions ==> w.sessions[p].attempt == 1 || w.sessions[p].found.live == {}) ==>
              |LiveChildren(p, w.store.jobs)| <= BatchBound(c)
  {
    ReachableRefreshInv(c, w);
    if p !in w.sessions {
      NewParentIsChildless(c, w, p);
    } else {
      FirstAttemptFindsNothing(c, w, p);
      if w.sessions[p].found.live == {} {
        assert ParentOk(c, w, p);
        LiveAreOwn(c, w, p);
      }
    }
  }

  /**
   In an attempt that found no live child, the poll lets the parent go on exactly when no child is left live; the
   counter is then exactly what it enqueued.
   */
  lemma PollIsExact(c: Settings, w: World, p: JobId)
    requires Reachable(c, w)
    ensures p in w.sessions && (w.sessions[p].attempt == 1 || w.sessions[p].found.live == {}) ==>
              && w.sessions[p].queued <= |w.sessions[p].groups|
              && (BatchSettled(w.store, p, w.sessions[p]) <==> LiveChildren(p, w.store.jobs) == {})
              && (BatchSettled(w.store, p, w.sessions[p]) ==>
                    ProgressOf(w.store, p).processed == SumSizes(w.sessions[p].groups[..w.sessions[p].queued]))
  {
    ReachableRefreshInv(c, w);
    if p in w.sessions {
      FirstAttemptFindsNothing(c, w, p);
      assert ParentOk(c, w, p);
      if w.sessions[p].found.live == {} {
        SettledBatchIsExact(c, w, p);
      }
    }
  }

  /** After a poll of such an attempt the next batch begins exactly when no child is live and a group is left. */
  lemma NextBatchBeginsIff(c: Settings, w: World, p: JobId)
    requires Reachable(c, w) && Enabled(c, w, PollProgress(p))
    requires w.sessions[p].attempt == 1 || w.sessions[p].found.live == {}
    ensures Enabled(c, Next(c, w, PollProgress(p)), EnqueueChild(p))
            <==> LiveChildren(p, w.store.jobs) == {} && w.sessions[p].queued < |w.sessions[p].groups|
  {
    PollIsExact(c, w, p);
    ReachableRefreshInv(c, w);
    assert ParentOk(c, w, p);
  }

  datatype RefreshStatus = RefreshCompleted | RefreshFailed | RefreshRateLimited

  /** What the parent computes from the last progress it read. */
  datatype Summary = Summary(status: RefreshStatus, processed: int, updated: int, failed: int, skipped: int)

  function Summarize(progress: Progress): Summary {
    var updated := CountOf(progress, Success);
    var skipped := CountOf(progress, NotFound) + CountOf(progress, Skipped);
    var failed := progress.processed - updated - skipped;
    var status :=
      if failed == 0 then RefreshCompleted
      else if CountOf(progress, RateLimited) > 0 then RefreshRateLimited
      else RefreshFailed;
    Summary(status, progress.processed, updated, failed, skipped)
  }

  /** The last wait loop of the parent: every group queued, and `processed` reached the total. */
  predicate RefreshOver(w: World, p: JobId) {
    && p in w.sessions
    && w.sessions[p].queued == |w.sessions[p].groups|
    && ProgressOf(w.store, p).processed >= SumSizes(w.sessions[p].groups)
  }

  /** The four counters the summary reads. */
  predicate CountersClean(progress: Progress) {
    && CountOf(progress, Success) == 0 && CountOf(progress, NotFound) == 0
    && CountOf(progress, Skipped) == 0 && CountOf(progress, RateLimited) == 0
  }

  predicate BeganClean(session: Session) {
    session.found.live == {} && CountersClean(session.found.progress)
  }

  /** The parts of the summary are the weights of the children, and its status says how they ended. */
  ghost predicate StatusExact(p: JobId, jobs: seq<Job>, summary: Summary) {
    && summary.updated + summary.skipped + summary.failed == summary.processed
    && summary.updated == Total(SettledWeight(p, Success), jobs)
    && summary.failed == Total(SettledWeight(p, Failed), jobs) + Total(SettledWeight(p, RateLimited), jobs)
    && (summary.status == RefreshCompleted <==> !Ended(p, Failed, jobs) && !Ended(p, RateLimited, jobs))
    && (summary.status == RefreshRateLimited <==> Ended(p, RateLimited, jobs))
  }

  /** Some child ended this way. */
  predicate Ended(p: JobId, status: Status, jobs: seq<Job>) {
    exists j :: 0 <= j < |jobs| && jobs[j].parent == Some(p) && jobs[j].status == status
  }

  /** And no child is left, so the summary accounts for every organization of the attempt. */
  ghost predicate Exact(w: World, p: JobId, summary: Summary)
    requires p in w.sessions
  {
    && w.sessions[p].found.jobs <= |w.store.jobs|
    && LiveChildren(p, w.store.jobs) == {}
    && summary.processed == SumSizes(w.sessions[p].groups)
    && StatusExact(p, OwnJobs(w, p), summary)
  }

  /** A status has weight exactly when some child has it. */
  lemma {:induction false} EndedIffWeight(p: JobId, status: Status, jobs: seq<Job>)
    ensures Total(SettledWeight(p, status), jobs) > 0 <==> Ended(p, status, jobs)
  {
    if jobs != [] {
      var front := jobs[..|jobs| - 1];
      EndedIffWeight(p, status, front);
      if Ended(p, status, front) {
        var j :| 0 <= j < |front| && front[j].parent == Some(p) && front[j].status == status;
        assert jobs[j] == front[j];
      }
    }
  }

  lemma WaitEndsAtTotal(c: Settings, w: World, p: JobId)
    requires Reachable(c, w) && RefreshOver(w, p) && w.sessions[p].found.live == {}
    ensures LiveChildren(p, w.store.jobs) == {}
    ensures ProgressOf(w.store, p).processed == SumSizes(w.sessions[p].groups)
  {
    ReachableRefreshInv(c, w);
    assert w.sessions[p].groups[..|w.sessions[p].groups|] == w.sessions[p].groups;
    SettledBatchIsExact(c, w, p);
  }

  /**
   What an attempt has to find for its summary to say how its own children ended: no success, no missing and no
   skipped organization, and no rate-limited one that gets the blame for a failure.
   */
  predicate NothingToBlame(p: JobId, found: Progress, own: seq<Job>) {
    && CountOf(found, Success) == 0 && CountOf(found, NotFound) == 0 && CountOf(found, Skipped) == 0
    && (CountOf(found, RateLimited) == 0 || !Ended(p, Failed, own) || Ended(p, RateLimited, own))
  }

  lemma CountersSay(progress: Progress, found: Progress, p: JobId, own: seq<Job>)
    requires forall status | Terminal(status) :: CountOf(found, status) >= 0
    requires forall status | Terminal(status) ::
               CountOf(progress, status) == CountOf(found, status) + Total(SettledWeight(p, status), own)
    requires progress.processed == Total(EndedWeight(p), own)
    ensures StatusExact(p, own, Summarize(progress)) <==> NothingToBlame(p, found, own)
  {
    EndedSplit(p, own);
    EndedIffWeight(p, Failed, own);
    EndedIffWeight(p, RateLimited, own);
  }

  /**
   The wait of an attempt that found no live child ends exactly at the total, when every child is settled, and
   its summary is exact if and only if what it found leaves nothing to blame.
   */
  lemma SummaryIsExactIff(c: Settings, w: World, p: JobId)
    requires Reachable(c, w)
    ensures RefreshOver(w, p) && w.sessions[p].found.live == {} ==>
              && w.sessions[p].found.jobs <= |w.store.jobs|
              && (Exact(w, p, Summarize(ProgressOf(w.store, p))) <==>
                  NothingToBlame(p, w.sessions[p].found.progress, OwnJobs(w, p)))
  {
    if RefreshOver(w, p) && w.sessions[p].found.live == {} {
      WaitEndsAtTotal(c, w, p);
      ReachableRefreshInv(c, w);
      assert ParentOk(c, w, p);
      forall status | Terminal(status)
        ensures CountOf(ProgressOf(w.store, p), status)
                == CountOf(w.sessions[p].found.progress, status) + Total(SettledWeight(p, status), OwnJobs(w, p))
      {
        CounterIsOwn(c, w, p, status);
      }
      CountersSay(ProgressOf(w.store, p), w.sessions[p].found.progress, p, OwnJobs(w, p));
    }
  }

  /**
   A first attempt, and every other that began clean, ends its wait when every child is settled; the parts of its
   summary add up to the total, and it is called completed if and only if no child failed or stayed rate limited.
   */
  lemma SummaryIsExact(c: Settings, w: World, p: JobId)
    requires Reachable(c, w)
    ensures RefreshOver(w, p) && (w.sessions[p].attempt == 1 || BeganClean(w.sessions[p])) ==>
              Exact(w, p, Summarize(ProgressOf(w.store, p)))
  {
    if RefreshOver(w, p) {
      FirstAttemptFindsNothing(c, w, p);
      SummaryIsExactIff(c, w, p);
    }
  }
}
