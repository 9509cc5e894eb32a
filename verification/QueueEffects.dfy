/**
 What the records of the queue mean over runs: a lease lasts two minutes from the last sign of its holder, a settled
 job keeps what its finish said, and an entry that nobody claims from any more is acknowledged.
 */
module QueueEffects {
  import opened Options
  import opened JobStore
  import opened JobProtocol
  import opened QueueInvariant
  import opened QueueGuarantees
  import opened Settlement
  import opened EnqueueGuarantees

  predicate HeldWith(s: Store, j: JobId, token: Token) {
    j < |s.jobs| && s.jobs[j].status == Running && s.jobs[j].claim == Some(token)
  }

  // ---- leases ----

  /** The job is claimed, or its holder sends a heartbeat. */
  predicate SignsFor(w: World, a: Action, j: JobId) {
    match a
    case Claim(e) =>
      e < |w.store.log| && w.store.log[e].job == j && j < |w.store.jobs| && w.store.jobs[j].status == Queued
    case Heartbeat(k, t) => k == j && HeldWith(w.store, j, t)
    case _ => false
  }

  /** When the last sign for the job came; `before` is the one before the run. */
  function LastSign(c: Settings, w: World, actions: seq<Action>, j: JobId, before: Time): Time
    requires ValidRun(c, w, actions)
    decreases |actions|
  {
    if actions == [] then before
    else
      LastSign(c, Next(c, w, actions[0]), actions[1..], j, if SignsFor(w, actions[0], j) then w.store.now else before)
  }

  /** While the job runs its lease lasts 120 seconds from the sign. */
  predicate LeaseFrom(s: Store, j: JobId, sign: Time) {
    j < |s.jobs| && s.jobs[j].status == Running ==> j in s.active && s.active[j] == sign + 120.0
  }

  lemma RecoverKeepsLeaseFrom(s: Store, k: JobId, claimed: Option<EntryId>, message: string, j: JobId, sign: Time)
    requires LeaseFrom(s, j, sign)
    ensures LeaseFrom(AfterRecover(s, k, claimed, message), j, sign)
  {
  }

  lemma EnqueueKeepsLeaseFrom(s: Store, cap: nat, r: Request, j: JobId, sign: Time)
    requires LeaseFrom(s, j, sign)
    ensures LeaseFrom(AfterEnqueue(s, cap, r), j, sign)
  {
  }

  lemma StepLeases(c: Settings, w: World, a: Action, j: JobId, sign: Time)
    requires Enabled(c, w, a) && LeaseFrom(w.store, j, sign)
    ensures LeaseFrom(NextStore(c, w, a), j, if SignsFor(w, a, j) then w.store.now else sign)
  {
    var s := w.store;
    match a
    case Enqueue(r) => EnqueueKeepsLeaseFrom(s, c.maxActiveJobs, r, j, sign);
    case EnqueueChild(p) =>
      var r := ChildRequest(p, w.sessions[p].groups[w.sessions[p].queued]);
      EnqueueKeepsLeaseFrom(s, c.maxActiveJobs, r, j, sign);
    case RecoverEntry(e) => RecoverKeepsLeaseFrom(s, s.log[e].job, Some(e), RECOVER_MESSAGE, j, sign);
    case RecoverExpired(k) => RecoverKeepsLeaseFrom(s, k, None, RECOVER_MESSAGE, j, sign);
    case _ =>
  }

  lemma {:induction false} RunLeases(c: Settings, w: World, actions: seq<Action>, j: JobId, sign: Time)
    requires ValidRun(c, w, actions) && LeaseFrom(w.store, j, sign)
    ensures LeaseFrom(Run(c, w, actions).store, j, LastSign(c, w, actions, j, sign))
    decreases |actions|
  {
    if actions != [] {
      StepLeases(c, w, actions[0], j, sign);
      RunLeases(
        c, Next(c, w, actions[0]), actions[1..], j, if SignsFor(w, actions[0], j) then w.store.now else sign);
    }
  }

  /**
   In every run the lease of a running job lasts exactly 120 seconds from its claim or the last heartbeat of its
   holder, and a recovery of it takes the job back exactly when they are over.
   */
  lemma LeaseIsExact(c: Settings, actions: seq<Action>, j: JobId)
    requires ValidRun(c, START, actions)
    requires var s := Run(c, START, actions).store; j < |s.jobs| && s.jobs[j].status == Running
    ensures var w, sign := Run(c, START, actions), LastSign(c, START, actions, j, 0.0);
            && j in w.store.active && w.store.active[j] == sign + 120.0
            && RunsOn(Next(c, w, RecoverExpired(j)).store, j, w.store.now < sign + 120.0)
  {
    var sign := LastSign(c, START, actions, j, 0.0);
    RunLeases(c, START, actions, j, 0.0);
    RecoveryOfLeaseIff(c, Run(c, START, actions), j, sign);
  }

  /** The job runs on, or waits again. */
  predicate RunsOn(s: Store, j: JobId, on: bool) {
    j < |s.jobs| && s.jobs[j].status == (if on then Running else Queued)
  }

  lemma RecoveryOfLeaseIff(c: Settings, w: World, j: JobId, sign: Time)
    requires j < |w.store.jobs| && w.store.jobs[j].status == Running && LeaseFrom(w.store, j, sign)
    ensures RunsOn(Next(c, w, RecoverExpired(j)).store, j, w.store.now < sign + 120.0)
  {
  }

  // ---- what a settled job says ----

  datatype Ending = Ending(status: Status, result: Option<string>, message: Option<string>)

  /** The holder of the job reports an outcome. */
  predicate Ends(w: World, a: Action, j: JobId) {
    a.Finish? && a.job == j && a.status != Queued && a.status != Running && HeldWith(w.store, j, a.token)
  }

  /** What the first such report of a run says. */
  function FirstEnding(c: Settings, w: World, actions: seq<Action>, j: JobId): Option<Ending>
    requires ValidRun(c, w, actions)
    decreases |actions|
  {
    if actions == [] then None
    else if Ends(w, actions[0], j) then Some(Ending(actions[0].status, actions[0].result, actions[0].message))
    else FirstEnding(c, Next(c, w, actions[0]), actions[1..], j)
  }

  predicate Shows(s: Store, j: JobId, e: Ending) {
    && j < |s.jobs| && s.jobs[j].status == e.status && s.jobs[j].claim == None
    && s.jobs[j].result == e.result && s.jobs[j].message == e.message
  }

  lemma FinishShows(c: Settings, w: World, a: Action, j: JobId)
    requires Enabled(c, w, a) && Ends(w, a, j)
    ensures Done(Next(c, w, a).store, j) && Shows(Next(c, w, a).store, j, Ending(a.status, a.result, a.message))
  {
  }

  lemma {:induction false} DoneStays(c: Settings, w: World, actions: seq<Action>, j: JobId)
    requires Inv(c, w) && ValidRun(c, w, actions) && Done(w.store, j)
    ensures var s := Run(c, w, actions).store; Done(s, j) && s.jobs[j] == w.store.jobs[j]
    decreases |actions|
  {
    if actions != [] {
      RecordIsFinal(c, w, actions[0], j);
      StepKeeps(c, w, actions[0]);
      DoneStays(c, Next(c, w, actions[0]), actions[1..], j);
    }
  }

  lemma {:induction false} RunEnds(c: Settings, w: World, actions: seq<Action>, j: JobId)
    requires Inv(c, w) && ValidRun(c, w, actions) && !Done(w.store, j)
    ensures var s, ending := Run(c, w, actions).store, FirstEnding(c, w, actions, j);
            && (Done(s, j) <==> ending.Some?)
            && (ending.Some? ==> Shows(s, j, ending.value))
    decreases |actions|
  {
    if actions != [] {
      var w' := Next(c, w, actions[0]);
      StepKeeps(c, w, actions[0]);
      if Ends(w, actions[0], j) {
        FinishShows(c, w, actions[0], j);
        DoneStays(c, w', actions[1..], j);
      } else {
        OnlyFinishSettles(c, w, actions[0], j);
        RunEnds(c, w', actions[1..], j);
      }
    }
  }

  /**
   In every run a job is settled exactly when its holder has reported an outcome, and shows the status, the result
   and the message of the first report for ever after.
   */
  lemma SettledJobShowsItsReport(c: Settings, actions: seq<Action>, j: JobId)
    requires ValidRun(c, START, actions) && j < |Run(c, START, actions).store.jobs|
    ensures var job, ending := Run(c, START, actions).store.jobs[j], FirstEnding(c, START, actions, j);
            && (job.status == Queued || job.status == Running <==> ending == None)
            && (ending.Some? ==>
                  job.status == ending.value.status && job.result == ending.value.result
                  && job.message == ending.value.message && job.claim == None)
  {
    assert Inv(c, START);
    RunEnds(c, START, actions, j);
  }

  // ---- entries ----

  /** The entry a job was last claimed or recovered from is acknowledged once the job does not run. */
  ghost predicate EntriesSettled(s: Store) {
    forall j | 0 <= j < |s.jobs| && s.jobs[j].status != Running && s.jobs[j].entry.Some? ::
      s.jobs[j].entry.value < |s.log| && s.log[s.jobs[j].entry.value].state == Acknowledged
  }

  lemma RecoverSettlesEntries(w: World, k: JobId, claimed: Option<EntryId>, message: string)
    requires EntriesNameJobs(w) && EntriesSettled(w.store) && ClaimedEntry(w.store, k, claimed)
    ensures EntriesSettled(AfterRecover(w.store, k, claimed, message))
  {
  }

  lemma RequeueSettlesEntries(
    w: World, j: JobId, message: Option<string>, delay: Time, retries: Option<nat>)
    requires EntriesNameJobs(w) && EntriesSettled(w.store)
    ensures EntriesSettled(AfterRequeue(w.store, j, message, delay, retries))
  {
  }

  lemma ReturnSettlesEntries(c: Settings, w: World, a: Action)
    requires Enabled(c, w, a) && Returns(a) && EntriesNameJobs(w) && EntriesSettled(w.store)
    ensures EntriesSettled(NextStore(c, w, a))
  {
    var s := w.store;
    match a
    case RecoverEntry(e) => RecoverSettlesEntries(w, s.log[e].job, Some(e), RECOVER_MESSAGE);
    case RecoverExpired(k) => RecoverSettlesEntries(w, k, None, RECOVER_MESSAGE);
    case Retry(j, t, after) =>
      var retries := s.jobs[j].retries;
      RequeueSettlesEntries(w, j, Some(RETRY_MESSAGE), RetryDelay(after, retries), Some(retries + 1));
    case Cancel(j, _) => RequeueSettlesEntries(w, j, Some(CANCEL_MESSAGE), 0.0, None);
    case _ =>
  }

  lemma StepSettlesEntries(c: Settings, w: World, a: Action)
    requires Enabled(c, w, a) && EntriesNameJobs(w) && EntriesSettled(w.store)
    ensures EntriesSettled(NextStore(c, w, a))
  {
    if Returns(a) {
      ReturnSettlesEntries(c, w, a);
    } else if a.Enqueue? {
      EnqueueSettlesEntries(w.store, c.maxActiveJobs, a.request);
    } else if a.EnqueueChild? {
      var session := w.sessions[a.parent];
      EnqueueSettlesEntries(w.store, c.maxActiveJobs, ChildRequest(a.parent, session.groups[session.queued]));
    } else if a.Finish? {
      FinishSettlesEntries(w, a.job, a.token, a.status, a.result, a.message);
    } else {
      OthersGrow(c, w, a);
      GrowthSettlesEntries(w.store, NextStore(c, w, a));
    }
  }

  lemma FinishSettlesEntries(
    w: World, j: JobId, token: Token, status: Status, result: Option<string>, message: Option<string>)
    requires EntriesNameJobs(w) && EntriesSettled(w.store)
    ensures EntriesSettled(AfterFinish(w.store, j, token, status, result, message))
  {
  }

  /** No job stops running, and acknowledged entries stay so. */
  ghost predicate Grows(s: Store, s': Store) {
    && |s'.jobs| == |s.jobs| && |s.log| <= |s'.log|
    && (forall j | 0 <= j < |s.jobs| :: s'.jobs[j] == s.jobs[j] || s'.jobs[j].status == Running)
    && (forall e | 0 <= e < |s.log| && s.log[e].state == Acknowledged :: s'.log[e].state == Acknowledged)
  }

  lemma GrowthSettlesEntries(s: Store, s': Store)
    requires EntriesSettled(s) && Grows(s, s')
    ensures EntriesSettled(s')
  {
  }

  lemma OthersGrow(c: Settings, w: World, a: Action)
    requires Enabled(c, w, a) && !Returns(a) && !a.Finish? && !a.Enqueue? && !a.EnqueueChild?
    ensures Grows(w.store, NextStore(c, w, a))
  {
  }

  lemma EnqueueSettlesEntries(s: Store, cap: nat, r: Request)
    requires EntriesSettled(s)
    ensures EntriesSettled(AfterEnqueue(s, cap, r))
  {
  }

  lemma {:induction false} RunSettlesEntries(c: Settings, w: World, actions: seq<Action>)
    requires Inv(c, w) && ValidRun(c, w, actions) && EntriesSettled(w.store)
    ensures EntriesSettled(Run(c, w, actions).store)
    decreases |actions|
  {
    if actions != [] {
      StepSettlesEntries(c, w, actions[0]);
      StepKeeps(c, w, actions[0]);
      RunSettlesEntries(c, Next(c, w, actions[0]), actions[1..]);
    }
  }

  /** In every run no consumer is left with the entry of a job that nobody runs: XAUTOCLAIM does not see it again. */
  lemma EntriesAreAcknowledged(c: Settings, actions: seq<Action>, j: JobId, e: EntryId)
    requires ValidRun(c, START, actions)
    requires var s := Run(c, START, actions).store;
             j < |s.jobs| && s.jobs[j].status != Running && s.jobs[j].entry == Some(e)
    ensures var s := Run(c, START, actions).store; e < |s.log| && s.log[e].state == Acknowledged
  {
    assert Inv(c, START);
    RunSettlesEntries(c, START, actions);
  }

  // ---- stamps ----

  /** Whatever changes a record stamps it with the time, but for a further subscriber. */
  predicate Stamped(s: Store, s': Store, j: JobId) {
    && j < |s.jobs| && j < |s'.jobs|
    && (s'.jobs[j] == s.jobs[j].(subscribers := s'.jobs[j].subscribers) || s'.jobs[j].updatedAt == s.now)
  }

  lemma RecoverStamps(s: Store, k: JobId, claimed: Option<EntryId>, message: string, j: JobId)
    requires j < |s.jobs|
    ensures Stamped(s, AfterRecover(s, k, claimed, message), j)
  {
  }

  lemma EnqueueStamps(s: Store, cap: nat, r: Request, j: JobId)
    requires j < |s.jobs|
    ensures Stamped(s, AfterEnqueue(s, cap, r), j)
  {
  }

  lemma RequeueStamps(s: Store, k: JobId, message: Option<string>, delay: Time, retries: Option<nat>, j: JobId)
    requires j < |s.jobs|
    ensures Stamped(s, AfterRequeue(s, k, message, delay, retries), j)
  {
  }

  lemma ChangesAreStamped(c: Settings, w: World, a: Action, j: JobId)
    requires Enabled(c, w, a) && j < |w.store.jobs|
    ensures Stamped(w.store, NextStore(c, w, a), j)
  {
    var s := w.store;
    match a
    case Enqueue(r) => EnqueueStamps(s, c.maxActiveJobs, r, j);
    case EnqueueChild(p) =>
      EnqueueStamps(s, c.maxActiveJobs, ChildRequest(p, w.sessions[p].groups[w.sessions[p].queued]), j);
    case RecoverEntry(e) => RecoverStamps(s, s.log[e].job, Some(e), RECOVER_MESSAGE, j);
    case RecoverExpired(k) => RecoverStamps(s, k, None, RECOVER_MESSAGE, j);
    case Retry(k, t, after) =>
      var retries := s.jobs[k].retries;
      RequeueStamps(s, k, Some(RETRY_MESSAGE), RetryDelay(after, retries), Some(retries + 1), j);
    case Cancel(k, _) => RequeueStamps(s, k, Some(CANCEL_MESSAGE), 0.0, None, j);
    case _ =>
  }

  // ---- back to the stream ----

  /** The log grew by one unread entry of the job, in the stream of its kind. */
  ghost predicate OneMoreEntry(log: seq<Entry>, log': seq<Entry>, j: JobId, kind: Kind) {
    && |log'| == |log| + 1 && log'[|log|].job == j && log'[|log|].state == Waiting && StreamOf(kind, log'[|log|].queue)
  }

  lemma JobsFitTheirStreams(c: Settings, w: World, j: JobId)
    requires Reachable(c, w) && j < |w.store.jobs|
    ensures StreamOf(w.store.jobs[j].kind, w.store.jobs[j].queue)
  {
    ReachableIffRun(c, w);
    var actions :| ValidRun(c, START, actions) && Run(c, START, actions) == w;
    JobsComeFromRequests(c, actions);
    assert ComesFrom(w.store.jobs[j], Births(c, START, actions)[j]);
  }

  /** A due job gets one entry and leaves the schedule; if its XADD fails, it gets none and is due a second later. */
  lemma PromotionDoes(c: Settings, w: World, j: JobId)
    requires Reachable(c, w) && j in w.store.scheduled && j < |w.store.jobs| && w.store.jobs[j].status == Queued
    ensures var done, failed := Next(c, w, Promote(j)).store, Next(c, w, FailPromotion(j)).store;
            && OneMoreEntry(w.store.log, done.log, j, w.store.jobs[j].kind)
            && done.jobs == w.store.jobs && done.scheduled == w.store.scheduled - {j}
            && failed == w.store.(scheduled := w.store.scheduled[j := w.store.now + 1.0])
  {
    JobsFitTheirStreams(c, w, j);
  }

  /** The job is queued again and nobody's, with an entry of its own to come and `source` acknowledged. */
  ghost predicate BackInStream(s: Store, s': Store, j: JobId, source: Option<EntryId>) {
    && j < |s.jobs| && |s'.jobs| == |s.jobs|
    && s'.jobs[j] == s.jobs[j].(status := Queued, claim := None, entry := source,
                                message := Some("Job recovered after a worker stopped."), updatedAt := s.now)
    && (forall i | 0 <= i < |s.jobs| && i != j :: s'.jobs[i] == s.jobs[i])
    && j !in s'.active && OneMoreEntry(s.log, s'.log, j, s.jobs[j].kind)
    && (source.Some? && source.value < |s.log| && s.log[source.value].state != Waiting ==>
          s'.log[source.value].state == Acknowledged)
  }

  lemma ReclaimIsBackInStream(s: Store, j: JobId, claimed: Option<EntryId>)
    requires j < |s.jobs| && StreamOf(s.jobs[j].kind, s.jobs[j].queue)
    ensures BackInStream(s, Reclaim(s, j, claimed, RECOVER_MESSAGE), j,
                         if claimed.Some? then claimed else s.jobs[j].entry)
  {
  }

  /**
   The recovery of an idle entry: a running job with time left on its lease is left alone, the entry of a settled
   job is acknowledged, and any other job is back in its stream.
   */
  lemma RecoveryOfEntryDoes(c: Settings, w: World, e: EntryId)
    requires Reachable(c, w) && Enabled(c, w, RecoverEntry(e))
    ensures var s, s', j := w.store, Next(c, w, RecoverEntry(e)).store, w.store.log[e].job;
            j < |s.jobs| &&
            match s.jobs[j].status
            case Running =>
              if j in s.active && s.now < s.active[j] then s' == s else BackInStream(s, s', j, Some(e))
            case Queued => BackInStream(s, s', j, Some(e))
            case _ => s'.jobs == s.jobs && s'.log == s.log[e := s.log[e].(state := Acknowledged)]
  {
    ReachableInv(c, w);
    var j := w.store.log[e].job;
    JobsFitTheirStreams(c, w, j);
    ReclaimIsBackInStream(w.store, j, Some(e));
  }

  /** The recovery of a lease: only a running job whose lease is over goes back, no entry being named. */
  lemma RecoveryOfLeaseDoes(c: Settings, w: World, j: JobId)
    requires Reachable(c, w)
    ensures var s, s' := w.store, Next(c, w, RecoverExpired(j)).store;
            if j < |s.jobs| && s.jobs[j].status == Running && j in s.active && s.active[j] <= s.now
            then BackInStream(s, s', j, s.jobs[j].entry)
            else s'.jobs == s.jobs && s'.log == s.log
  {
    if j < |w.store.jobs| {
      ReachableInv(c, w);
      JobsFitTheirStreams(c, w, j);
      LeaseRecoveryDoes(w.store, j);
    }
  }

  lemma LeaseRecoveryDoes(s: Store, j: JobId)
    requires j < |s.jobs| && StreamOf(s.jobs[j].kind, s.jobs[j].queue)
    requires s.jobs[j].status == Running ==> j in s.active
    ensures var s' := AfterRecover(s, j, None, RECOVER_MESSAGE);
            if s.jobs[j].status == Running && s.active[j] <= s.now
            then BackInStream(s, s', j, s.jobs[j].entry)
            else s'.jobs == s.jobs && s'.log == s.log
  {
    ReclaimIsBackInStream(s, j, None);
  }

  // ---- claim and finish ----

  predicate OnlyJobChanges(s: Store, s': Store, j: JobId) {
    |s'.jobs| == |s.jobs| && forall i | 0 <= i < |s.jobs| && i != j :: s'.jobs[i] == s.jobs[i]
  }

  /** A claim takes a queued job under a token that no job bears; otherwise its entry waits to be acknowledged. */
  lemma ClaimDoes(c: Settings, w: World, e: EntryId)
    requires Reachable(c, w) && Enabled(c, w, Claim(e))
    ensures var w' := Next(c, w, Claim(e));
            var s, s' := w.store, w'.store;
            && e < |s.log| && s.log[e].job < |s.jobs| && w'.issued == w.issued + 1 && e !in w'.hands
            && (forall i | 0 <= i < |s.jobs| :: s.jobs[i].claim != Some(w.issued))
            && var j := s.log[e].job;
               if s.jobs[j].status == Queued then
                 && OnlyJobChanges(s, s', j) && s' == s.(jobs := s'.jobs, active := s.active[j := s.now + 120.0])
                 && s'.jobs[j] == s.jobs[j].(status := Running, claim := Some(w.issued), entry := Some(e),
                                             updatedAt := s.now)
                 && w'.doomed == w.doomed
               else s' == s && w'.doomed == w.doomed + {e}
  {
    ReachableInv(c, w);
  }

  /** The weight of the job goes to `processed` and to the counter of the status, and nowhere else. */
  predicate AddsProgress(p: Progress, p': Progress, status: Status, weight: int) {
    var added := if weight < 1 then 1 else weight;
    && p'.total == p.total && p'.processed == p.processed + added
    && CountIn(p', status) == CountIn(p, status) + added
    && forall other | other != status :: CountIn(p', other) == CountIn(p, other)
  }

  function CountIn(p: Progress, status: Status): int {
    if status in p.counts then p.counts[status] else 0
  }

  function ProgressIn(progress: map<JobId, Progress>, parent: JobId): Progress {
    if parent in progress then progress[parent] else Progress(0, 0, map[])
  }

  /** The entry of the job is acknowledged, if it was pending. */
  predicate Acknowledges(log: seq<Entry>, log': seq<Entry>, entry: Option<EntryId>) {
    && |log'| == |log|
    && forall e | 0 <= e < |log| ::
         log'[e] == if entry == Some(e) && log[e].state == Pending then log[e].(state := Acknowledged) else log[e]
  }

  /** The parent of the job counts it, and no other. */
  ghost predicate CountsJob(progress: map<JobId, Progress>, progress': map<JobId, Progress>, job: Job, status: Status) {
    forall p: JobId ::
      if job.parent == Some(p)
      then AddsProgress(ProgressIn(progress, p), ProgressIn(progress', p), status, job.progressWeight)
      else ProgressIn(progress', p) == ProgressIn(progress, p)
  }

  /** The key is free and the others are as they were. */
  ghost predicate FreesKey(dedupe: map<DedupeKey, JobId>, dedupe': map<DedupeKey, JobId>, key: DedupeKey) {
    && key !in dedupe'
    && (forall k | k != key :: k in dedupe' <==> k in dedupe)
    && (forall k | k in dedupe' && k in dedupe :: dedupe'[k] == dedupe[k])
  }

  ghost predicate FreesSlot(
    slots: map<UserId, map<JobId, Time>>, slots': map<UserId, map<JobId, Time>>, owner: Option<UserId>, j: JobId)
  {
    forall u: UserId ::
      && (u in slots' <==> u in slots)
      && (u in slots ==> slots'[u] == if owner == Some(u) then slots[u] - {j} else slots[u])
  }

  lemma ParentCountsJob(s: Store, job: Job, status: Status)
    ensures CountsJob(s.progress, ProgressAfter(s, job, status), job, status)
  {
  }

  lemma KeyIsFreed(s: Store, j: JobId)
    requires DedupeMatchesLive(s) && j < |s.jobs| && Live(s.jobs[j])
    ensures FreesKey(s.dedupe, DedupeAfter(s.dedupe, s.jobs[j].key, j), s.jobs[j].key)
  {
  }

  lemma SlotIsFreed(slots: map<UserId, map<JobId, Time>>, owner: Option<UserId>, j: JobId)
    ensures FreesSlot(slots, SlotsAfter(slots, owner, j), owner, j)
  {
  }

  lemma EntryIsAcknowledged(log: seq<Entry>, entry: Option<EntryId>)
    ensures Acknowledges(log, AcknowledgeOf(log, entry), entry)
  {
  }

  ghost predicate Settled(
    s: Store, s': Store, j: JobId, status: Status, result: Option<string>, message: Option<string>)
    requires j < |s.jobs|
  {
    var job := s.jobs[j];
    && s'.jobs == s.jobs[j := job.(status := status, result := result, message := message, claim := None,
                                   updatedAt := s.now)]
    && s'.active == s.active - {j} && s'.scheduled == s.scheduled && s'.now == s.now
    && Acknowledges(s.log, s'.log, job.entry)
    && CountsJob(s.progress, s'.progress, job, status)
    && FreesSlot(s.slots, s'.slots, job.owner, j)
    && FreesKey(s.dedupe, s'.dedupe, job.key)
  }

  lemma FinishSettles(
    s: Store, j: JobId, token: Token, status: Status, result: Option<string>, message: Option<string>)
    requires DedupeMatchesLive(s)
    ensures var s' := AfterFinish(s, j, token, status, result, message);
            if HeldWith(s, j, token) && status != Queued && status != Running
            then Settled(s, s', j, status, result, message)
            else s' == s
  {
    if HeldWith(s, j, token) {
      ParentCountsJob(s, s.jobs[j], status);
      KeyIsFreed(s, j);
      SlotIsFreed(s.slots, s.jobs[j].owner, j);
      EntryIsAcknowledged(s.log, s.jobs[j].entry);
    }
  }

  /**
   The holder of a job ends it with any outcome: the lease, the entry, the slot and the key of the job are released
   and its parent counts it. Nobody else changes anything.
   */
  lemma FinishDoes(
    c: Settings, w: World, j: JobId, token: Token, status: Status, result: Option<string>, message: Option<string>)
    requires Reachable(c, w)
    ensures var s, s' := w.store, Next(c, w, Finish(j, token, status, result, message)).store;
            if HeldWith(s, j, token) && status != Queued && status != Running
            then Settled(s, s', j, status, result, message)
            else s' == s
  {
    ReachableInv(c, w);
    FinishSettles(w.store, j, token, status, result, message);
  }

  // ---- totals ----

  /** The total a parent shows is the number of organizations in the groups of its attempt. */
  ghost predicate TotalsFit(w: World) {
    forall p | p in w.sessions :: ProgressIn(w.store.progress, p).total == SumSizes(w.sessions[p].groups)
  }

  ghost predicate TotalsKept(progress: map<JobId, Progress>, progress': map<JobId, Progress>) {
    forall p: JobId :: ProgressIn(progress', p).total == ProgressIn(progress, p).total
  }

  lemma FinishKeepsTotals(
    s: Store, j: JobId, token: Token, status: Status, result: Option<string>, message: Option<string>)
    ensures TotalsKept(s.progress, AfterFinish(s, j, token, status, result, message).progress)
  {
  }

  lemma OthersKeepProgress(c: Settings, w: World, a: Action)
    requires Enabled(c, w, a) && !a.Finish? && !a.BeginRefresh?
    ensures NextStore(c, w, a).progress == w.store.progress
  {
    if Returns(a) {
      ReturnKeepsProgress(c, w, a);
    }
  }

  lemma ReturnKeepsProgress(c: Settings, w: World, a: Action)
    requires Enabled(c, w, a) && Returns(a)
    ensures NextStore(c, w, a).progress == w.store.progress
  {
  }

  lemma StepKeepsTotals(c: Settings, w: World, a: Action)
    requires Enabled(c, w, a) && TotalsFit(w)
    ensures TotalsFit(Next(c, w, a))
  {
    if a.Finish? {
      FinishKeepsTotals(w.store, a.job, a.token, a.status, a.result, a.message);
    } else if !a.BeginRefresh? {
      OthersKeepProgress(c, w, a);
    }
  }

  lemma {:induction false} RunKeepsTotals(c: Settings, w: World, actions: seq<Action>)
    requires ValidRun(c, w, actions) && TotalsFit(w)
    ensures TotalsFit(Run(c, w, actions))
    decreases |actions|
  {
    if actions != [] {
      StepKeepsTotals(c, w, actions[0]);
      RunKeepsTotals(c, Next(c, w, actions[0]), actions[1..]);
    }
  }

  /** In every run the total of a parent is that of its latest attempt, whatever its children did. */
  lemma TotalIsOfTheAttempt(c: Settings, actions: seq<Action>, p: JobId)
    requires ValidRun(c, START, actions) && p in Run(c, START, actions).sessions
    ensures var w := Run(c, START, actions);
            ProgressIn(w.store.progress, p).total == SumSizes(w.sessions[p].groups)
  {
    RunKeepsTotals(c, START, actions);
  }
}
