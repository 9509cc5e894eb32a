/**
 A run in which all four counters are zero when a parent begins again, and its refresh is completed although a
 child of it was never settled: the live child of the first attempt stands in for it. Batches of one; the parent
 is job 0, and its groups are A and B both times.
 */
module LeftoverChild {
  import opened Options
  import opened JobStore
  import opened JobProtocol
  import opened QueueInvariant
  import opened QueueGuarantees
  import opened ChildWeights
  import opened FullRefresh
  import opened FullRefreshGuarantees

  const GROUPS: seq<Group> := [Group("A", 1), Group("B", 1)]

  lemma GroupSizes()
    ensures SumSizes(GROUPS[..1]) == 1 && SumSizes(GROUPS) == 2 && SumSizes(GROUPS[..2]) == 2
  {
    SumSizesNext(GROUPS, 0);
    SumSizesNext(GROUPS, 1);
    assert GROUPS[..0] == [] && GROUPS[..2] == GROUPS;
  }

  predicate IsChild(w: World, j: JobId, inn: string, status: Status) {
    && j < |w.store.jobs|
    && w.store.jobs[j].key == RefreshItem(0, inn) && w.store.jobs[j].parent == Some(0)
    && w.store.jobs[j].progressWeight == 1 && w.store.jobs[j].status == status
  }

  predicate Unread(w: World, j: JobId) {
    j < |w.store.log| && w.store.log[j] == Entry(FullRefreshLow, j, Waiting)
  }

  /** The parent is there, every job came with one entry, and this is where the batch loop stands. */
  ghost predicate Stands(c: Settings, w: World, jobs: nat, queued: nat, batchStart: nat, progress: Progress) {
    && Reachable(c, w)
    && |w.store.jobs| == |w.store.log| == jobs && jobs >= 1 && w.store.jobs[0].key == FullRefresh
    && 0 in w.sessions && w.sessions[0].groups == GROUPS
    && w.sessions[0].queued == queued && w.sessions[0].batchStart == batchStart
    && ProgressOf(w.store, 0) == progress
  }

  // ---- what the parent and a worker do ----

  lemma ParentEnqueues(c: Settings, w: World, jobs: nat, queued: nat, inn: string, progress: Progress)
    returns (w': World)
    requires Stands(c, w, jobs, queued, queued, progress) && queued < 2 && GROUPS[queued] == Group(inn, 1)
    requires forall j | 0 <= j < jobs && Live(w.store.jobs[j]) :: w.store.jobs[j].key != RefreshItem(0, inn)
    ensures Stands(c, w', jobs + 1, queued + 1, queued, progress) && IsChild(w', jobs, inn, Queued) && Unread(w', jobs)
    ensures w'.store.jobs[..jobs] == w.store.jobs && w'.store.log[..jobs] == w.store.log
    ensures w'.sessions[0] == w.sessions[0].(queued := queued + 1)
  {
    ReachableInv(c, w);
    ChildIsInserted(c, w, 0);
    ReachableNext(c, w, EnqueueChild(0));
    w' := Next(c, w, EnqueueChild(0));
  }

  lemma ParentPolls(c: Settings, w: World, jobs: nat, progress: Progress) returns (w': World)
    requires Stands(c, w, jobs, 1, 0, progress) && c.batchSize <= 1 && progress.processed >= 1
    ensures Stands(c, w', jobs, 1, 1, progress) && w'.store == w.store
    ensures w'.sessions[0] == w.sessions[0].(batchStart := 1)
  {
    GroupSizes();
    ReachableNext(c, w, PollProgress(0));
    w' := Next(c, w, PollProgress(0));
  }

  /** Reading, claiming and finishing the job of an entry. */
  ghost predicate WorkedOff(w: World, w': World, j: JobId, status: Status)
    requires j < |w.store.jobs| && j < |w.store.log|
  {
    && w'.sessions == w.sessions
    && |w'.store.jobs| == |w.store.jobs| && |w'.store.log| == |w.store.log|
    && (forall i | 0 <= i < |w.store.jobs| && i != j :: w'.store.jobs[i] == w.store.jobs[i])
    && (forall e | 0 <= e < |w.store.log| && e != j :: w'.store.log[e] == w.store.log[e])
    && w'.store.jobs[j].key == w.store.jobs[j].key && w'.store.jobs[j].status == status
    && ProgressOf(w'.store, 0) == Bump(ProgressOf(w.store, 0), status, 1)
  }

  lemma WorkerClaims(c: Settings, w: World, j: JobId, inn: string) returns (w': World)
    requires Reachable(c, w) && IsChild(w, j, inn, Queued) && Unread(w, j)
    ensures Reachable(c, w') && Holds(w'.store, j, w.issued)
    ensures w'.store == w.store.(jobs := w'.store.jobs, log := w'.store.log, active := w'.store.active)
    ensures w'.sessions == w.sessions
    ensures |w'.store.jobs| == |w.store.jobs| && |w'.store.log| == |w.store.log|
    ensures w'.store.jobs[j]
            == w.store.jobs[j].(status := Running, claim := Some(w.issued), entry := Some(j), updatedAt := w.store.now)
    ensures forall i | 0 <= i < |w.store.jobs| && i != j :: w'.store.jobs[i] == w.store.jobs[i]
    ensures forall e | 0 <= e < |w.store.log| && e != j :: w'.store.log[e] == w.store.log[e]
  {
    ReachableNext(c, w, Deliver(j));
    var read := Next(c, w, Deliver(j));
    ReachableNext(c, read, Claim(j));
    w' := Next(c, read, Claim(j));
  }

  lemma WorkerFinishes(c: Settings, w: World, j: JobId, inn: string, status: Status) returns (w': World)
    requires Reachable(c, w) && IsChild(w, j, inn, Queued) && Unread(w, j) && Terminal(status)
    ensures Reachable(c, w') && WorkedOff(w, w', j, status)
  {
    var claimed := WorkerClaims(c, w, j, inn);
    ReachableNext(c, claimed, Finish(j, w.issued, status, None, None));
    w' := Next(c, claimed, Finish(j, w.issued, status, None, None));
    ProgressOfFinish(claimed.store, w'.store, claimed.store.jobs[j], status, 0);
  }

  // ---- the first attempt: A fails, B is live, the worker of the parent stops ----

  lemma ParentBegins(c: Settings) returns (w: World)
    ensures Stands(c, w, 1, 0, 0, Progress(2, 0, map[])) && w.sessions[0].attempt == 1
  {
    var request := Request(RefreshAll, None, JobStore.FullRefresh, None, 1);
    StartReachable(c);
    ReachableNext(c, START, Enqueue(request));
    var queued := Next(c, START, Enqueue(request));
    ReachableNext(c, queued, BeginRefresh(0, GROUPS));
    w := Next(c, queued, BeginRefresh(0, GROUPS));
    GroupSizes();
  }

  lemma FirstChildFails(c: Settings) returns (w: World)
    requires c.batchSize <= 1
    ensures Stands(c, w, 2, 1, 1, Progress(2, 1, map[Failed := 1])) && w.sessions[0].attempt == 1
    ensures w.store.jobs[1].status == Failed
  {
    var begun := ParentBegins(c);
    var first := ParentEnqueues(c, begun, 1, 0, "A", Progress(2, 0, map[]));
    var failed := WorkerFinishes(c, first, 1, "A", Failed);
    w := ParentPolls(c, failed, 2, Progress(2, 1, map[Failed := 1]));
  }

  lemma FirstAttemptStops(c: Settings) returns (w: World)
    requires c.batchSize <= 1
    ensures Stands(c, w, 3, 2, 1, Progress(2, 1, map[Failed := 1])) && w.sessions[0].attempt == 1
    ensures w.store.jobs[1].status == Failed && IsChild(w, 2, "B", Queued) && Unread(w, 2)
  {
    var failed := FirstChildFails(c);
    w := ParentEnqueues(c, failed, 2, 1, "B", Progress(2, 1, map[Failed := 1]));
    assert w.store.jobs[..2][1] == failed.store.jobs[1];
  }

  // ---- the second attempt ----

  /** It is the second one, and no counter the summary reads was left. */
  predicate Second(w: World) {
    0 in w.sessions && w.sessions[0].attempt == 2 && CountersClean(w.sessions[0].found.progress)
  }

  lemma ParentRestarts(c: Settings, w: World, jobs: nat, queued: nat, batchStart: nat, progress: Progress)
    returns (w': World)
    requires Stands(c, w, jobs, queued, batchStart, progress)
    ensures Stands(c, w', jobs, 0, 0, Progress(2, 0, progress.counts))
    ensures w'.store.jobs == w.store.jobs && w'.store.log == w.store.log
    ensures w'.sessions[0].attempt == w.sessions[0].attempt + 1 && w'.sessions[0].found.progress == progress
  {
    ReachableNext(c, w, BeginRefresh(0, GROUPS));
    w' := Next(c, w, BeginRefresh(0, GROUPS));
    GroupSizes();
  }

  lemma ParentBeginsAgain(c: Settings) returns (w: World)
    requires c.batchSize <= 1
    ensures Stands(c, w, 3, 0, 0, Progress(2, 0, map[Failed := 1])) && Second(w)
    ensures w.store.jobs[1].status == Failed && IsChild(w, 2, "B", Queued) && Unread(w, 2)
  {
    var stopped := FirstAttemptStops(c);
    w := ParentRestarts(c, stopped, 3, 2, 1, Progress(2, 1, map[Failed := 1]));
  }

  /** B of the first attempt and A of the second are live together: two, where a batch is one. */
  lemma TwoBatchesAreLive(c: Settings) returns (w: World)
    requires c.batchSize <= 1
    ensures Stands(c, w, 4, 1, 0, Progress(2, 0, map[Failed := 1])) && Second(w)
    ensures w.store.jobs[1].status == Failed && IsChild(w, 2, "B", Queued) && Unread(w, 2)
    ensures IsChild(w, 3, "A", Queued)
    ensures |LiveChildren(0, w.store.jobs)| > BatchBound(c)
  {
    var begun := ParentBeginsAgain(c);
    w := ParentEnqueues(c, begun, 3, 0, "A", Progress(2, 0, map[Failed := 1]));
    forall j | 0 <= j < 3
      ensures w.store.jobs[j] == begun.store.jobs[j] && w.store.log[j] == begun.store.log[j]
    {
      assert w.store.jobs[..3][j] == w.store.jobs[j] && w.store.log[..3][j] == w.store.log[j];
    }
    assert {2, 3} <= LiveChildren(0, w.store.jobs);
    SubsetSize({2, 3}, LiveChildren(0, w.store.jobs));
  }

  /** The old B succeeds, and the wait for A is over. */
  lemma WaitEndsEarly(c: Settings) returns (w: World)
    requires c.batchSize <= 1
    ensures Stands(c, w, 4, 1, 1, Progress(2, 1, map[Failed := 1, Success := 1])) && Second(w)
    ensures w.store.jobs[1].status == Failed && w.store.jobs[2].status == Success && IsChild(w, 3, "A", Queued)
  {
    var crowded := TwoBatchesAreLive(c);
    var worked := WorkerFinishes(c, crowded, 2, "B", Success);
    w := ParentPolls(c, worked, 4, Progress(2, 1, map[Failed := 1, Success := 1]));
  }

  lemma LastChildIsEnqueued(c: Settings) returns (w: World)
    requires c.batchSize <= 1
    ensures Stands(c, w, 5, 2, 1, Progress(2, 1, map[Failed := 1, Success := 1])) && Second(w)
    ensures IsChild(w, 3, "A", Queued) && IsChild(w, 4, "B", Queued) && Unread(w, 4)
  {
    var early := WaitEndsEarly(c);
    w := ParentEnqueues(c, early, 4, 1, "B", Progress(2, 1, map[Failed := 1, Success := 1]));
    assert w.store.jobs[..4][3] == early.store.jobs[3];
  }

  /** The refresh counts as completed, and its A was never settled. */
  lemma CompletedWithLiveChild(c: Settings) returns (w: World)
    requires c.batchSize <= 1
    ensures Reachable(c, w) && Second(w) && RefreshOver(w, 0)
    ensures Summarize(ProgressOf(w.store, 0)).status == RefreshCompleted && 3 in LiveChildren(0, w.store.jobs)
  {
    var last := LastChildIsEnqueued(c);
    w := WorkerFinishes(c, last, 4, "B", Success);
    GroupSizes();
  }
}
