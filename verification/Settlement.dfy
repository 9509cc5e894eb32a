/**
 At-most-once settlement and fencing: a job ends once, its record is final from then on, a claim
 token that was superseded has no effect, and a claimant whose heartbeats land in time keeps its
 claim against every other process.
 */
module Settlement {
  import opened Options
  import opened JobStore
  import opened JobProtocol
  import opened QueueInvariant
  import opened QueueGuarantees

  predicate Done(s: Store, j: JobId) {
    j < |s.jobs| && Terminal(s.jobs[j].status)
  }

  /** The action is the finish that ends job `j`. */
  predicate SettledBy(s: Store, a: Action, j: JobId) {
    a.Finish? && a.job == j && FinishSucceeds(s, j, a.token, a.status)
  }

  /** The action is the holder of `token` giving job `j` back. */
  predicate GivenBackBy(a: Action, j: JobId, token: Token) {
    (a.Retry? || a.Cancel?) && a.job == j && a.token == token
  }

  // ---- the five ways the record of a job can move ----

  ghost predicate Subscribed(job: Job, job': Job) {
    job' == job.(subscribers := job'.subscribers)
  }

  ghost predicate Moves(s: Store, s': Store, a: Action, issued: Token, j: JobId)
    requires j < |s.jobs|
  {
    && j < |s'.jobs|
    && var job, job' := s.jobs[j], s'.jobs[j];
      || job' == job
      || (Subscribed(job, job') && (exists r :: Duplicates(s, r) && s.dedupe[r.key] == j))
      || (job.status == Queued && job'.status == Running && job'.claim == Some(issued))
      || (SettledBy(s, a, j) && job'.status == a.status)
      || (job.status == Queued && job'.status == Queued && job'.claim == None)
      || (job.status == Running && job'.status == Queued && job'.claim == None
          && (LeaseLive(s, j) ==> job.claim.Some? && GivenBackBy(a, j, job.claim.value)))
  }

  lemma EnqueueMoves(s: Store, cap: nat, r: Request, a: Action, issued: Token, j: JobId)
    requires j < |s.jobs|
    ensures Moves(s, AfterEnqueue(s, cap, r), a, issued, j)
  {
  }

  lemma RecoverMoves(s: Store, k: JobId, claimed: Option<EntryId>, message: string, a: Action, issued: Token, j: JobId)
    requires j < |s.jobs|
    ensures Moves(s, AfterRecover(s, k, claimed, message), a, issued, j)
  {
  }

  lemma RecordMoves(c: Settings, w: World, a: Action, j: JobId)
    requires Enabled(c, w, a) && j < |w.store.jobs|
    ensures Moves(w.store, Next(c, w, a).store, a, w.issued, j)
  {
    var s := w.store;
    match a
    case Enqueue(r) => EnqueueMoves(s, c.maxActiveJobs, r, a, w.issued, j);
    case EnqueueChild(p) =>
      EnqueueMoves(s, c.maxActiveJobs, ChildRequest(p, w.sessions[p].groups[w.sessions[p].queued]), a, w.issued, j);
    case RecoverEntry(e) => RecoverMoves(s, s.log[e].job, Some(e), RECOVER_MESSAGE, a, w.issued, j);
    case RecoverExpired(k) => RecoverMoves(s, k, None, RECOVER_MESSAGE, a, w.issued, j);
    case Retry(k, t, after) =>
    case Cancel(k, t) =>
    case _ =>
  }

  lemma InsertedJobIsQueued(s: Store, cap: nat, r: Request, j: JobId)
    requires |s.jobs| <= j < |AfterEnqueue(s, cap, r).jobs|
    ensures AfterEnqueue(s, cap, r).jobs[j].status == Queued && AfterEnqueue(s, cap, r).jobs[j].claim == None
  {
  }

  lemma RecoveryAddsNoJob(s: Store, k: JobId, claimed: Option<EntryId>, message: string)
    ensures |AfterRecover(s, k, claimed, message).jobs| == |s.jobs|
  {
  }

  lemma ReturnAddsNoJob(c: Settings, w: World, a: Action)
    requires Enabled(c, w, a) && Returns(a)
    ensures |NextStore(c, w, a).jobs| == |w.store.jobs|
  {
    match a
    case RecoverEntry(e) => RecoveryAddsNoJob(w.store, w.store.log[e].job, Some(e), RECOVER_MESSAGE);
    case RecoverExpired(k) => RecoveryAddsNoJob(w.store, k, None, RECOVER_MESSAGE);
    case _ =>
  }

  lemma OnlyEnqueueAddsJobs(c: Settings, w: World, a: Action)
    requires Enabled(c, w, a) && !a.Enqueue? && !a.EnqueueChild?
    ensures |NextStore(c, w, a).jobs| == |w.store.jobs|
  {
    if Returns(a) {
      ReturnAddsNoJob(c, w, a);
    }
  }

  lemma NewJobsAreQueued(c: Settings, w: World, a: Action, j: JobId)
    requires Enabled(c, w, a) && |w.store.jobs| <= j < |Next(c, w, a).store.jobs|
    ensures Next(c, w, a).store.jobs[j].status == Queued && Next(c, w, a).store.jobs[j].claim == None
  {
    if a.Enqueue? {
      InsertedJobIsQueued(w.store, c.maxActiveJobs, a.request, j);
    } else if a.EnqueueChild? {
      var session := w.sessions[a.parent];
      InsertedJobIsQueued(w.store, c.maxActiveJobs, ChildRequest(a.parent, session.groups[session.queued]), j);
    } else {
      OnlyEnqueueAddsJobs(c, w, a);
    }
  }

  // ---- terminal records are final, and a job is settled once ----

  lemma RecordIsFinal(c: Settings, w: World, a: Action, j: JobId)
    requires Inv(c, w) && Enabled(c, w, a) && Done(w.store, j)
    ensures Done(Next(c, w, a).store, j) && Next(c, w, a).store.jobs[j] == w.store.jobs[j]
  {
    RecordMoves(c, w, a, j);
  }

  lemma OnlyFinishSettles(c: Settings, w: World, a: Action, j: JobId)
    requires Enabled(c, w, a) && !Done(w.store, j)
    ensures Done(Next(c, w, a).store, j) <==> SettledBy(w.store, a, j)
  {
    if j < |w.store.jobs| {
      RecordMoves(c, w, a, j);
    } else if j < |Next(c, w, a).store.jobs| {
      NewJobsAreQueued(c, w, a, j);
    }
  }

  /** How often `finish_job` succeeds on the job during a run. */
  function Settlements(c: Settings, w: World, actions: seq<Action>, j: JobId): nat
    requires ValidRun(c, w, actions)
    decreases |actions|
  {
    if actions == [] then 0
    else (if SettledBy(w.store, actions[0], j) then 1 else 0) + Settlements(c, Next(c, w, actions[0]), actions[1..], j)
  }

  function AsCount(b: bool): nat {
    if b then 1 else 0
  }

  /** Over any interleaving a job is settled at most once, and a settled record never changes again. */
  lemma {:induction false} SettledAtMostOnce(c: Settings, w: World, actions: seq<Action>, j: JobId)
    requires Inv(c, w) && ValidRun(c, w, actions)
    ensures AsCount(Done(w.store, j)) + Settlements(c, w, actions, j) == AsCount(Done(Run(c, w, actions).store, j))
    ensures Done(w.store, j) ==>
              Done(Run(c, w, actions).store, j) && Run(c, w, actions).store.jobs[j] == w.store.jobs[j]
    decreases |actions|
  {
    if actions != [] {
      StepKeeps(c, w, actions[0]);
      if Done(w.store, j) {
        RecordIsFinal(c, w, actions[0], j);
      } else {
        OnlyFinishSettles(c, w, actions[0], j);
      }
      SettledAtMostOnce(c, Next(c, w, actions[0]), actions[1..], j);
    }
  }

  // ---- superseded tokens ----

  /** A token that was handed out and is not the current claim of the job. */
  predicate Superseded(w: World, j: JobId, token: Token) {
    token < w.issued && !Holds(w.store, j, token)
  }

  lemma SupersededStays(c: Settings, w: World, a: Action, j: JobId, token: Token)
    requires Inv(c, w) && Enabled(c, w, a) && Superseded(w, j, token)
    ensures Superseded(Next(c, w, a), j, token)
  {
    if j < |w.store.jobs| {
      RecordMoves(c, w, a, j);
    } else if j < |Next(c, w, a).store.jobs| {
      NewJobsAreQueued(c, w, a, j);
    }
  }

  /** Once superseded, a token never works again: its finish and its heartbeat change nothing at all. */
  lemma {:induction false} SupersededTokenIsPowerless(
    c: Settings, w: World, actions: seq<Action>, j: JobId, token: Token,
    status: Status, result: Option<string>, message: Option<string>)
    requires Inv(c, w) && ValidRun(c, w, actions) && Superseded(w, j, token)
    ensures var end := Run(c, w, actions);
            && Superseded(end, j, token)
            && Next(c, end, Finish(j, token, status, result, message)) == end
            && Next(c, end, Heartbeat(j, token)) == end
    decreases |actions|
  {
    if actions != [] {
      StepKeeps(c, w, actions[0]);
      SupersededStays(c, w, actions[0], j, token);
      SupersededTokenIsPowerless(c, Next(c, w, actions[0]), actions[1..], j, token, status, result, message);
    }
  }

  // ---- a live lease is never stolen ----

  /** The holder itself ends the claim. */
  predicate Leaves(a: Action, j: JobId, token: Token) {
    (a.Finish? && a.job == j && a.token == token && Terminal(a.status)) || GivenBackBy(a, j, token)
  }

  /** Read off the trace alone: each heartbeat of the holder comes less than a lease after the one before. */
  predicate HeartbeatsInTime(actions: seq<Action>, now: Time, deadline: Time, j: JobId, token: Token)
    decreases |actions|
  {
    actions == [] ||
    match actions[0]
    case Tick(d) => now + d < deadline && HeartbeatsInTime(actions[1..], now + d, deadline, j, token)
    case Heartbeat(k, t) =>
      HeartbeatsInTime(actions[1..], now, if k == j && t == token then now + JOB_LEASE_SECONDS else deadline, j, token)
    case a => !Leaves(a, j, token) && HeartbeatsInTime(actions[1..], now, deadline, j, token)
  }

  /** The claim is current and its lease runs to `deadline`. */
  predicate Leased(s: Store, j: JobId, token: Token, deadline: Time) {
    Holds(s, j, token) && j in s.active && s.active[j] == deadline && s.now < deadline
  }

  function DeadlineAfter(a: Action, now: Time, deadline: Time, j: JobId, token: Token): Time {
    if a == Heartbeat(j, token) then now + JOB_LEASE_SECONDS else deadline
  }

  lemma EnqueueKeepsLease(s: Store, cap: nat, r: Request, j: JobId, token: Token, deadline: Time)
    requires Leased(s, j, token, deadline)
    ensures Leased(AfterEnqueue(s, cap, r), j, token, deadline)
  {
  }

  lemma RecoverKeepsLease(
    s: Store, k: JobId, claimed: Option<EntryId>, message: string, j: JobId, token: Token, deadline: Time)
    requires Leased(s, j, token, deadline)
    ensures Leased(AfterRecover(s, k, claimed, message), j, token, deadline)
  {
  }

  lemma LeaseSurvives(c: Settings, w: World, a: Action, j: JobId, token: Token, deadline: Time)
    requires Enabled(c, w, a) && Leased(w.store, j, token, deadline)
    requires !Leaves(a, j, token) && (a.Tick? ==> w.store.now + a.elapsed < deadline)
    ensures Leased(Next(c, w, a).store, j, token, DeadlineAfter(a, w.store.now, deadline, j, token))
    ensures Next(c, w, a).store.now == if a.Tick? then w.store.now + a.elapsed else w.store.now
  {
    StoreKeepsLease(c, w, a, j, token, deadline);
  }

  lemma StoreKeepsLease(c: Settings, w: World, a: Action, j: JobId, token: Token, deadline: Time)
    requires Enabled(c, w, a) && Leased(w.store, j, token, deadline)
    requires !Leaves(a, j, token) && (a.Tick? ==> w.store.now + a.elapsed < deadline)
    ensures Leased(NextStore(c, w, a), j, token, DeadlineAfter(a, w.store.now, deadline, j, token))
    ensures NextStore(c, w, a).now == if a.Tick? then w.store.now + a.elapsed else w.store.now
  {
    var s := w.store;
    match a
    case Enqueue(r) => EnqueueKeepsLease(s, c.maxActiveJobs, r, j, token, deadline);
    case EnqueueChild(p) =>
      var request := ChildRequest(p, w.sessions[p].groups[w.sessions[p].queued]);
      EnqueueKeepsLease(s, c.maxActiveJobs, request, j, token, deadline);
    case _ =>
      if Returns(a) {
        ReturnKeepsLease(c, w, a, j, token, deadline);
      }
  }

  lemma ReturnKeepsLease(c: Settings, w: World, a: Action, j: JobId, token: Token, deadline: Time)
    requires Enabled(c, w, a) && Leased(w.store, j, token, deadline) && !Leaves(a, j, token) && Returns(a)
    ensures Leased(NextStore(c, w, a), j, token, deadline) && NextStore(c, w, a).now == w.store.now
  {
    var s := w.store;
    match a
    case RecoverEntry(e) => RecoverKeepsLease(s, s.log[e].job, Some(e), RECOVER_MESSAGE, j, token, deadline);
    case RecoverExpired(k) => RecoverKeepsLease(s, k, None, RECOVER_MESSAGE, j, token, deadline);
    case Retry(k, t, after) =>
      var delay := RetryDelay(after, s.jobs[k].retries);
    case Cancel(k, t) =>
    case _ =>
  }

  /** While its heartbeats land in time, nobody takes a claim away, and the claimant's finish then succeeds. */
  lemma {:induction false} LiveLeaseIsNeverStolen(
    c: Settings, w: World, actions: seq<Action>, j: JobId, token: Token, deadline: Time, status: Status)
    requires ValidRun(c, w, actions) && Leased(w.store, j, token, deadline)
    requires HeartbeatsInTime(actions, w.store.now, deadline, j, token) && Terminal(status)
    ensures var end := Run(c, w, actions).store;
            Holds(end, j, token) && LeaseLive(end, j) && FinishSucceeds(end, j, token, status)
    decreases |actions|
  {
    if actions != [] {
      var a := actions[0];
      LeaseSurvives(c, w, a, j, token, deadline);
      LiveLeaseIsNeverStolen(
        c, Next(c, w, a), actions[1..], j, token, DeadlineAfter(a, w.store.now, deadline, j, token), status);
    }
  }

  // ---- `requeue_job` has no fence ----

  /** The settlement of the job, and everybody else's claim to it, are as before. */
  predicate Undisturbed(s: Store, s': Store, j: JobId, caller: Token) {
    && (Done(s, j) ==> Done(s', j) && s'.jobs[j] == s.jobs[j])
    && (j < |s.jobs| && s.jobs[j].claim.Some? && s.jobs[j].claim.value != caller ==>
         Holds(s', j, s.jobs[j].claim.value))
  }

  /** The job is missing, or it is live and nobody but the caller claims it. */
  predicate Guard(s: Store, j: JobId, caller: Token) {
    j >= |s.jobs| || (Live(s.jobs[j]) && (s.jobs[j].claim == None || s.jobs[j].claim == Some(caller)))
  }

  /** A step of the protocol, or a requeue by anybody at any time. */
  datatype Event =
    | Step(action: Action)
    | Requeue(job: JobId, caller: Token, message: Option<string>, delay: Time, retries: Option<nat>)

  predicate Happens(c: Settings, w: World, e: Event) {
    match e
    case Step(a) => Enabled(c, w, a)
    case Requeue(_, _, _, _, retries) => retries.Some? ==> retries.value <= c.maxRetries
  }

  function After(c: Settings, w: World, e: Event): World
    requires Happens(c, w, e)
  {
    match e
    case Step(a) => Next(c, w, a)
    case Requeue(j, _, message, delay, retries) => Requeued(w, j, message, delay, retries)
  }

  predicate ValidEvents(c: Settings, w: World, events: seq<Event>)
    decreases |events|
  {
    events == [] || (Happens(c, w, events[0]) && ValidEvents(c, After(c, w, events[0]), events[1..]))
  }

  function EndOf(c: Settings, w: World, events: seq<Event>): World
    requires ValidEvents(c, w, events)
    decreases |events|
  {
    if events == [] then w else EndOf(c, After(c, w, events[0]), events[1..])
  }

  /** Every requeue meets the guard when it happens. */
  predicate GuardedAlong(c: Settings, w: World, events: seq<Event>)
    requires ValidEvents(c, w, events)
    decreases |events|
  {
    events == [] ||
    (&& (events[0].Requeue? ==> Guard(w.store, events[0].job, events[0].caller))
     && GuardedAlong(c, After(c, w, events[0]), events[1..]))
  }

  /** No requeue disturbs anything. */
  predicate UndisturbedAlong(c: Settings, w: World, events: seq<Event>)
    requires ValidEvents(c, w, events)
    decreases |events|
  {
    events == [] ||
    var w' := After(c, w, events[0]);
    && (events[0].Requeue? ==> Undisturbed(w.store, w'.store, events[0].job, events[0].caller))
    && UndisturbedAlong(c, w', events[1..])
  }

  lemma GuardIsExact(s: Store, j: JobId, caller: Token, message: Option<string>, delay: Time, retries: Option<nat>)
    ensures Undisturbed(s, AfterRequeue(s, j, message, delay, retries), j, caller) <==> Guard(s, j, caller)
  {
  }

  /** Over every run, no requeue disturbs a settlement or the claim of another if and only if each meets the guard. */
  lemma {:induction false} RequeueHarmlessIff(c: Settings, w: World, events: seq<Event>)
    requires ValidEvents(c, w, events)
    ensures UndisturbedAlong(c, w, events) <==> GuardedAlong(c, w, events)
    decreases |events|
  {
    if events != [] {
      if events[0].Requeue? {
        var Requeue(j, caller, message, delay, retries) := events[0];
        GuardIsExact(w.store, j, caller, message, delay, retries);
      }
      RequeueHarmlessIff(c, After(c, w, events[0]), events[1..]);
    }
  }

  lemma EventKeeps(c: Settings, w: World, e: Event)
    requires Inv(c, w) && Happens(c, w, e) && (e.Requeue? ==> Guard(w.store, e.job, e.caller))
    ensures Inv(c, After(c, w, e))
  {
    match e
    case Step(a) => StepKeeps(c, w, a);
    case Requeue(j, _, message, delay, retries) =>
      if j < |w.store.jobs| {
        RequeueKeeps(c, w, j, message, delay, retries);
      }
  }

  lemma GuardedRequeueKeepsRecord(s: Store, k: JobId, caller: Token, message: Option<string>, delay: Time,
                                  retries: Option<nat>, j: JobId)
    requires Guard(s, k, caller)
    ensures var s' := AfterRequeue(s, k, message, delay, retries);
            (Done(s', j) <==> Done(s, j)) && (Done(s, j) ==> s'.jobs[j] == s.jobs[j])
  {
  }

  /** How often the job is settled during such a run. */
  function SettledDuring(c: Settings, w: World, events: seq<Event>, j: JobId): nat
    requires ValidEvents(c, w, events)
    decreases |events|
  {
    if events == [] then 0
    else
      AsCount(events[0].Step? && SettledBy(w.store, events[0].action, j))
      + SettledDuring(c, After(c, w, events[0]), events[1..], j)
  }

  /** While every requeue meets the guard, the invariant of the queue is kept, and a job is settled at most once. */
  lemma {:induction false} GuardedSettledAtMostOnce(c: Settings, w: World, events: seq<Event>, j: JobId)
    requires Inv(c, w) && ValidEvents(c, w, events) && GuardedAlong(c, w, events)
    ensures Inv(c, EndOf(c, w, events))
    ensures AsCount(Done(w.store, j)) + SettledDuring(c, w, events, j) == AsCount(Done(EndOf(c, w, events).store, j))
    ensures Done(w.store, j) ==>
              Done(EndOf(c, w, events).store, j) && EndOf(c, w, events).store.jobs[j] == w.store.jobs[j]
    decreases |events|
  {
    if events != [] {
      EventKeeps(c, w, events[0]);
      match events[0] {
        case Step(a) =>
          if Done(w.store, j) {
            RecordIsFinal(c, w, a, j);
          } else {
            OnlyFinishSettles(c, w, a, j);
          }
        case Requeue(k, caller, message, delay, retries) =>
          GuardedRequeueKeepsRecord(w.store, k, caller, message, delay, retries, j);
      }
      GuardedSettledAtMostOnce(c, After(c, w, events[0]), events[1..], j);
    }
  }

  // ---- a requeue outside the guard ----

  /** A job that ends during a run is settled in it, whatever state the run began in. */
  lemma {:induction false} EndingIsSettling(c: Settings, w: World, actions: seq<Action>, j: JobId)
    requires ValidRun(c, w, actions) && !Done(w.store, j) && Done(Run(c, w, actions).store, j)
    ensures Settlements(c, w, actions, j) >= 1
    decreases |actions|
  {
    if actions != [] {
      OnlyFinishSettles(c, w, actions[0], j);
      if !SettledBy(w.store, actions[0], j) {
        EndingIsSettling(c, Next(c, w, actions[0]), actions[1..], j);
      }
    }
  }

  /** The requeued job is queued, and in the schedule or waiting in its stream: workers settle it. */
  lemma RequeuedIsSettled(c: Settings, w: World, j: JobId, message: Option<string>, delay: Time, retries: Option<nat>)
    returns (actions: seq<Action>)
    requires j < |w.store.jobs|
    ensures var w' := Requeued(w, j, message, delay, retries);
            ValidRun(c, w', actions) && Settlements(c, w', actions, j) >= 1
  {
    var w' := Requeued(w, j, message, delay, retries);
    if delay > 0.0 {
      actions := ScheduledFinishes(c, w', j, Success);
    } else {
      assert Waits(w'.store, j, |w.store.log|);
      actions := WaitingFinishes(c, w', w', j, |w.store.log|, Success);
    }
    EndingIsSettling(c, w', actions, j);
  }

  /** After a requeue the job is settled at most once, all told and whatever happens, if and only if it was live. */
  lemma SettledAtMostOnceIff(
    c: Settings, w: World, j: JobId, message: Option<string>, delay: Time, retries: Option<nat>)
    requires Inv(c, w) && j < |w.store.jobs| && (retries.Some? ==> retries.value <= c.maxRetries)
    ensures (forall actions | ValidRun(c, Requeued(w, j, message, delay, retries), actions) ::
               AsCount(Done(w.store, j)) + Settlements(c, Requeued(w, j, message, delay, retries), actions, j) <= 1)
            <==> Live(w.store.jobs[j])
  {
    var w' := Requeued(w, j, message, delay, retries);
    if Live(w.store.jobs[j]) {
      RequeueKeeps(c, w, j, message, delay, retries);
      forall actions | ValidRun(c, w', actions)
        ensures AsCount(Done(w.store, j)) + Settlements(c, w', actions, j) <= 1
      {
        SettledAtMostOnce(c, w', actions, j);
      }
    } else {
      var actions := RequeuedIsSettled(c, w, j, message, delay, retries);
    }
  }

  lemma FullRefreshRead(c: Settings) returns (w: World)
    ensures Reachable(c, w) && w.issued == 0 && 0 in w.hands
    ensures |w.store.jobs| == 1 && w.store.jobs[0].status == Queued && |w.store.log| == 1 && w.store.log[0].job == 0
  {
    var request := Request(RefreshAll, None, FullRefresh, None, 1);
    StartReachable(c);
    ReachableNext(c, START, Enqueue(request));
    var queued := Next(c, START, Enqueue(request));
    ReachableNext(c, queued, Deliver(0));
    w := Next(c, queued, Deliver(0));
  }

  lemma FullRefreshClaimed(c: Settings) returns (w: World)
    ensures Reachable(c, w) && Holds(w.store, 0, 0)
  {
    var read := FullRefreshRead(c);
    ReachableNext(c, read, Claim(0));
    w := Next(c, read, Claim(0));
  }

  /** Unfenced, it can revive a finished job: a worker cancelled right after its finish script puts the job back. */
  lemma UnfencedRequeueRevives(c: Settings, message: Option<string>) returns (w: World)
    ensures Reachable(c, w) && Done(w.store, 0)
    ensures !Done(AfterRequeue(w.store, 0, message, 0.0, None), 0)
  {
    var claimed := FullRefreshClaimed(c);
    ReachableNext(c, claimed, Finish(0, 0, Success, None, None));
    w := Next(c, claimed, Finish(0, 0, Success, None, None));
  }
}
