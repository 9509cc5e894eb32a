/**
 A parent that was recovered or given back initialises its progress again: `processed` starts over, the status
 counters of the attempt before stay, and so do its children. What that attempt must have left behind for the
 next one to be right whatever happens in it.
 */
module SecondAttempt {
  import opened Options
  import opened JobStore
  import opened JobProtocol
  import opened QueueInvariant
  import opened QueueGuarantees
  import opened ChildWeights
  import opened FullRefresh
  import opened FullRefreshGuarantees

  // ---- one attempt ----

  /** The parent begins with these groups, anything happens, and it has not begun again by the end. */
  predicate AttemptRun(c: Settings, w: World, p: JobId, groups: seq<Group>, actions: seq<Action>) {
    && Enabled(c, w, BeginRefresh(p, groups))
    && var begun := Next(c, w, BeginRefresh(p, groups));
       && ValidRun(c, begun, actions)
       && var end := Run(c, begun, actions);
          p in end.sessions && end.sessions[p].attempt == begun.sessions[p].attempt
  }

  function AttemptEnd(c: Settings, w: World, p: JobId, groups: seq<Group>, actions: seq<Action>): World
    requires AttemptRun(c, w, p, groups, actions)
  {
    Run(c, Next(c, w, BeginRefresh(p, groups)), actions)
  }

  /** What a first attempt gives: at most one batch is live, and a refresh that is over has an exact summary. */
  ghost predicate Right(c: Settings, w: World, p: JobId) {
    && |LiveChildren(p, w.store.jobs)| <= BatchBound(c)
    && (RefreshOver(w, p) ==> Exact(w, p, Summarize(ProgressOf(w.store, p))))
  }

  /** Nothing is left of earlier attempts: no live child, and none of the four counters the summary reads. */
  predicate LeftClean(s: Store, p: JobId) {
    LiveChildren(p, s.jobs) == {} && CountersClean(ProgressOf(s, p))
  }

  lemma StepKeepsAttempt(c: Settings, w: World, a: Action, p: JobId)
    requires Enabled(c, w, a) && p in w.sessions
    ensures var w' := Next(c, w, a);
            && p in w'.sessions && w.sessions[p].attempt <= w'.sessions[p].attempt
            && (w'.sessions[p].attempt == w.sessions[p].attempt ==> w'.sessions[p].found == w.sessions[p].found)
  {
  }

  /** What an attempt found is what it found, until the next one. */
  lemma {:induction false} RunKeepsAttempt(c: Settings, w: World, actions: seq<Action>, p: JobId)
    requires ValidRun(c, w, actions) && p in w.sessions
    ensures var end := Run(c, w, actions);
            && p in end.sessions && w.sessions[p].attempt <= end.sessions[p].attempt
            && (end.sessions[p].attempt == w.sessions[p].attempt ==> end.sessions[p].found == w.sessions[p].found)
    decreases |actions|
  {
    if actions != [] {
      StepKeepsAttempt(c, w, actions[0], p);
      RunKeepsAttempt(c, Next(c, w, actions[0]), actions[1..], p);
    }
  }

  lemma CleanAttemptIsRight(c: Settings, w: World, p: JobId, groups: seq<Group>, actions: seq<Action>)
    requires Reachable(c, w) && LeftClean(w.store, p) && AttemptRun(c, w, p, groups, actions)
    ensures Right(c, AttemptEnd(c, w, p, groups, actions), p)
  {
    var begun := Next(c, w, BeginRefresh(p, groups));
    ReachableNext(c, w, BeginRefresh(p, groups));
    RunStaysReachable(c, begun, actions);
    RunKeepsAttempt(c, begun, actions, p);
    AtMostOneBatchIsLive(c, Run(c, begun, actions), p);
    SummaryIsExact(c, Run(c, begun, actions), p);
  }

  // ---- finishing a child counts ----

  predicate ChildOf(s: Store, p: JobId, j: JobId) {
    j < |s.jobs| && s.jobs[j].parent == Some(p)
  }

  function EndedAsCount(s: Store, j: JobId): nat {
    if j < |s.jobs| && !Live(s.jobs[j]) then 1 else 0
  }

  lemma StepCountsChild(c: Settings, start: World, w: World, a: Action, p: JobId, j: JobId)
    requires CodeDoes(c, start, w, a) && ChildOf(w.store, p, j)
    ensures Next(c, w, a).sessions == w.sessions && ChildOf(Next(c, w, a).store, p, j)
    ensures ProgressOf(Next(c, w, a).store, p).processed - ProgressOf(w.store, p).processed
            >= EndedAsCount(Next(c, w, a).store, j) - EndedAsCount(w.store, j)
  {
    if a.Finish? {
      if FinishSucceeds(w.store, a.job, a.token, a.status) {
        ProgressOfFinish(w.store, Next(c, w, a).store, w.store.jobs[a.job], a.status, p);
      }
    } else {
      StepIsAlike(c, w, a);
      assert Alike(w.store.jobs[j], Next(c, w, a).store.jobs[j]);
    }
  }

  /** While workers only read and finish, the sessions stay, and a child that ends counts. */
  lemma {:induction false} CodeRunCountsChild(
    c: Settings, start: World, w: World, actions: seq<Action>, p: JobId, j: JobId)
    requires CodeRun(c, start, w, actions) && ValidRun(c, w, actions) && ChildOf(w.store, p, j)
    ensures var end := Run(c, w, actions);
            && end.sessions == w.sessions && ChildOf(end.store, p, j)
            && ProgressOf(end.store, p).processed - ProgressOf(w.store, p).processed
               >= EndedAsCount(end.store, j) - EndedAsCount(w.store, j)
    decreases |actions|
  {
    if actions != [] {
      StepCountsChild(c, start, w, actions[0], p, j);
      CodeRunCountsChild(c, start, Next(c, w, actions[0]), actions[1..], p, j);
    }
  }

  // ---- whatever is left can make the next attempt wrong ----

  lemma {:induction false} ThenStep(c: Settings, w: World, actions: seq<Action>, a: Action)
    requires ValidRun(c, w, actions) && Enabled(c, Run(c, w, actions), a)
    ensures ValidRun(c, w, actions + [a]) && Run(c, w, actions + [a]) == Next(c, Run(c, w, actions), a)
    decreases |actions|
  {
    if actions == [] {
      assert ([] + [a])[1..] == [];
      assert actions + [a] == [a];
    } else {
      assert (actions + [a])[1..] == actions[1..] + [a];
      ThenStep(c, Next(c, w, actions[0]), actions[1..], a);
    }
  }

  const ONE: seq<Group> := [Group("", 1)]

  /** A success, a missing or a skipped organization of an earlier attempt: an attempt without groups reports it. */
  lemma CounterSpoilsEmptyAttempt(c: Settings, w: World, p: JobId)
    requires Reachable(c, w) && LiveChildren(p, w.store.jobs) == {}
    requires !NothingToBlame(p, ProgressOf(w.store, p), [])
    ensures AttemptRun(c, w, p, [], []) && !Right(c, AttemptEnd(c, w, p, [], []), p)
  {
    var begun := Next(c, w, BeginRefresh(p, []));
    ReachableNext(c, w, BeginRefresh(p, []));
    SummaryIsExactIff(c, begun, p);
    assert OwnJobs(begun, p) == [];
  }

  /** The attempt has one child, and it is live. */
  predicate OneChild(w: World, p: JobId, j: JobId) {
    && p in w.sessions && w.sessions[p].groups == ONE && w.sessions[p].queued == 1
    && w.sessions[p].found.live == {} && w.sessions[p].found.jobs <= j
    && ChildOf(w.store, p, j)
  }

  lemma OneChildIsQueued(c: Settings, w: World, p: JobId) returns (queued: World)
    requires Reachable(c, w) && LiveChildren(p, w.store.jobs) == {}
    ensures Reachable(c, queued) && OneChild(queued, p, |w.store.jobs|) && Live(queued.store.jobs[|w.store.jobs|])
    ensures queued.sessions[p].found.progress == ProgressOf(w.store, p)
    ensures Enabled(c, w, BeginRefresh(p, ONE))
    ensures var begun := Next(c, w, BeginRefresh(p, ONE));
            Enabled(c, begun, EnqueueChild(p)) && queued == Next(c, begun, EnqueueChild(p))
  {
    var begun := Next(c, w, BeginRefresh(p, ONE));
    ReachableNext(c, w, BeginRefresh(p, ONE));
    ReachableInv(c, begun);
    ReachableRefreshInv(c, begun);
    NextKeyIsFree(c, begun, p);
    ChildIsInserted(c, begun, p);
    ReachableNext(c, begun, EnqueueChild(p));
    queued := Next(c, begun, EnqueueChild(p));
  }

  /** The one child of the attempt failed: the refresh is over, and rate limits of an earlier attempt get the blame. */
  lemma OneFailureIsBlamed(c: Settings, w: World, p: JobId, j: JobId)
    requires Reachable(c, w) && OneChild(w, p, j) && w.store.jobs[j].status == Failed
    requires CountOf(w.sessions[p].found.progress, RateLimited) != 0
    ensures !Right(c, w, p)
  {
    ReachableRefreshInv(c, w);
    assert ParentOk(c, w, p);
    var own := OwnJobs(w, p);
    assert own[j - w.sessions[p].found.jobs] == w.store.jobs[j];
    assert Ended(p, Failed, own);
    assert ONE[..1] == ONE && ONE[..0] == [];
    EndedIffWeight(p, Failed, own);
    EndedIffWeight(p, RateLimited, own);
    EndedSplit(p, own);
    WeightsSplit(p, own);
    SummaryIsExactIff(c, w, p);
  }

  lemma RateLimitSpoilsFailure(c: Settings, w: World, p: JobId) returns (actions: seq<Action>)
    requires Reachable(c, w) && LiveChildren(p, w.store.jobs) == {}
    requires CountOf(ProgressOf(w.store, p), RateLimited) != 0
    ensures AttemptRun(c, w, p, ONE, actions) && !Right(c, AttemptEnd(c, w, p, ONE, actions), p)
  {
    var j := |w.store.jobs|;
    var queued := OneChildIsQueued(c, w, p);
    LiveJobCanStillFinish(c, queued, j, Failed);
    var rest :| Settles(c, queued, queued, rest, j, Failed);
    CodeRunCountsChild(c, queued, queued, rest, p, j);
    RunStaysReachable(c, queued, rest);
    OneFailureIsBlamed(c, Run(c, queued, rest), p, j);
    actions := [EnqueueChild(p)] + rest;
    assert actions[1..] == rest;
  }

  /** A new child, or the live one of an earlier attempt under its key: one is live afterwards. */
  lemma EnqueuedChildIsLive(c: Settings, w: World, p: JobId)
    requires Reachable(c, w) && Enabled(c, w, EnqueueChild(p))
    ensures LiveChildren(p, NextStore(c, w, EnqueueChild(p)).jobs) != {}
  {
    ReachableInv(c, w);
    ReachableRefreshInv(c, w);
    ChildIsInserted(c, w, p);
    var key := NextChild(w, p).key;
    if key in w.store.dedupe {
      var j := w.store.dedupe[key];
      assert ChildOk(w, j);
      AlikeIsLive(w.store.jobs, NextStore(c, w, EnqueueChild(p)).jobs, p, j);
    } else {
      InsertedIsLive(w.store.jobs, NewJob(NextChild(w, p), w.store.now), p);
    }
  }

  lemma AlikeIsLive(jobs: seq<Job>, jobs': seq<Job>, p: JobId, j: JobId)
    requires AllAlike(jobs, jobs') && j < |jobs| && jobs[j].parent == Some(p) && Live(jobs[j])
    ensures j in LiveChildren(p, jobs')
  {
    assert Alike(jobs[j], jobs'[j]);
  }

  lemma InsertedIsLive(jobs: seq<Job>, job: Job, p: JobId)
    requires job.parent == Some(p) && Live(job)
    ensures |jobs| in LiveChildren(p, jobs + [job])
  {
  }

  /** The attempt has counted its total before it enqueues its one child: it is over with that child live. */
  lemma EarlyCountEndsWait(c: Settings, w: World, p: JobId)
    requires Reachable(c, w) && p in w.sessions && ProgressOf(w.store, p).processed >= 1
    requires w.sessions[p].groups == ONE && w.sessions[p].queued == 0 && w.sessions[p].batchStart == 0
    ensures Enabled(c, w, EnqueueChild(p)) && !Right(c, Next(c, w, EnqueueChild(p)), p)
  {
    EnqueuedChildIsLive(c, w, p);
    EnqueueKeepsProgress(w.store, c.maxActiveJobs, NextChild(w, p));
    assert ONE[..1] == ONE && ONE[..0] == [];
  }

  lemma EnqueueKeepsProgress(s: Store, cap: nat, r: Request)
    ensures AfterEnqueue(s, cap, r).progress == s.progress
  {
  }

  /** A live child of an earlier attempt: it ends, counts, and stands in for the child of the next attempt. */
  lemma LeftoverSpoilsWait(c: Settings, w: World, p: JobId, left: JobId) returns (actions: seq<Action>)
    requires Reachable(c, w) && left in LiveChildren(p, w.store.jobs)
    ensures AttemptRun(c, w, p, ONE, actions) && !Right(c, AttemptEnd(c, w, p, ONE, actions), p)
  {
    var begun := Next(c, w, BeginRefresh(p, ONE));
    ReachableNext(c, w, BeginRefresh(p, ONE));
    LiveJobCanStillFinish(c, begun, left, Success);
    var rest :| Settles(c, begun, begun, rest, left, Success);
    CodeRunCountsChild(c, begun, begun, rest, p, left);
    RunStaysReachable(c, begun, rest);
    EarlyCountEndsWait(c, Run(c, begun, rest), p);
    ThenStep(c, begun, rest, EnqueueChild(p));
    actions := rest + [EnqueueChild(p)];
  }

  lemma UncleanAttemptCanGoWrong(c: Settings, w: World, p: JobId) returns (groups: seq<Group>, actions: seq<Action>)
    requires Reachable(c, w) && !LeftClean(w.store, p)
    ensures AttemptRun(c, w, p, groups, actions) && !Right(c, AttemptEnd(c, w, p, groups, actions), p)
  {
    if left :| left in LiveChildren(p, w.store.jobs) {
      groups := ONE;
      actions := LeftoverSpoilsWait(c, w, p, left);
    } else if !NothingToBlame(p, ProgressOf(w.store, p), []) {
      groups, actions := [], [];
      CounterSpoilsEmptyAttempt(c, w, p);
    } else {
      groups := ONE;
      actions := RateLimitSpoilsFailure(c, w, p);
    }
  }

  /**
   Seen when a parent begins: its batch bound and its summary are right whatever its groups are and whatever
   happens in the attempt if and only if earlier attempts left no live child and none of the four counters.
   */
  lemma AlwaysRightIff(c: Settings, w: World, p: JobId)
    requires Reachable(c, w)
    ensures (forall groups, actions | AttemptRun(c, w, p, groups, actions) ::
               Right(c, AttemptEnd(c, w, p, groups, actions), p)) <==> LeftClean(w.store, p)
  {
    if LeftClean(w.store, p) {
      forall groups, actions | AttemptRun(c, w, p, groups, actions)
        ensures Right(c, AttemptEnd(c, w, p, groups, actions), p)
      {
        CleanAttemptIsRight(c, w, p, groups, actions);
      }
    } else {
      var groups, actions := UncleanAttemptCanGoWrong(c, w, p);
    }
  }

  // ---- what a miscounted summary looks like ----

  lemma BumpCounts(progress: Progress, status: Status, weight: nat, other: Status)
    ensures CountOf(Bump(progress, status, weight), other)
            == CountOf(progress, other) + (if other == status then weight else 0)
  {
  }

  /** Children that succeed in both attempts: the parent reports as many failures below zero. */
  lemma Miscounts(none: Progress, size: nat)
    requires none.processed == 0 && none.counts == map[] && size >= 1
    ensures var first := Bump(none, Success, size);
            var again := Summarize(Bump(Initialised(first, size), Success, size));
            again.failed + size == 0 && again.status == RefreshFailed
  {
    var first := Bump(none, Success, size);
    var start := Initialised(first, size);
    forall status: Status
      ensures CountOf(Bump(start, Success, size), status) == if status == Success then 2 * size else 0
    {
      BumpCounts(none, Success, size, status);
      BumpCounts(start, Success, size, status);
    }
  }
}
