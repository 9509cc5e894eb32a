/** The worker: how it claims the next job, and how the outcome of a job turns into a step of the queue. */
module Worker {
  import opened Options
  import opened JobStore
  import opened JobProtocol
  import opened QueueInvariant
  import opened QueueGuarantees
  import opened ReadOrder
  import opened RedisStore
  import opened Settlement
  import opened QueueEffects

  datatype ResultStatus =
    | Ready | Updated | RefreshDone | LimitHit | Missing | Stale | Broken

  /** The response of the executed job, the exception it raised, or the cancellation of the worker meanwhile. */
  datatype Outcome =
    | Answer(status: ResultStatus, retryAfter: Time, payload: string, message: Option<string>)
    | Raised
    | Cancelled

  const ERROR_MESSAGE := "Internal error while processing a Dadata job."

  function TerminalStatus(status: ResultStatus): Status {
    match status
    case Ready => Success
    case Updated => Success
    case RefreshDone => Success
    case LimitHit => RateLimited
    case Missing => NotFound
    case Stale => Skipped
    case Broken => JobStore.Failed
  }

  /** A rate-limited job goes back for another attempt, unless it is a full refresh or out of retries. */
  predicate Retries(job: Job, outcome: Outcome, maxRetries: nat) {
    outcome.Answer? && outcome.status == LimitHit && job.kind != RefreshAll && job.retries < maxRetries
  }

  function AfterProcess(s: Store, job: Job, j: JobId, token: Token, outcome: Outcome, maxRetries: nat): Store {
    if Retries(job, outcome, maxRetries) then
      AfterRequeue(s, j, Some(RETRY_MESSAGE), RetryDelay(outcome.retryAfter, job.retries), Some(job.retries + 1))
    else
      match outcome
      case Answer(status, _, payload, message) =>
        AfterFinish(s, j, token, TerminalStatus(status), Some(payload), message)
      case Raised => AfterFinish(s, j, token, JobStore.Failed, None, Some(ERROR_MESSAGE))
      case Cancelled => AfterRequeue(s, j, Some(CANCEL_MESSAGE), 0.0, None)
  }

  /** `job` is the record as it was when the worker claimed it. */
  method ProcessJob(redis: Redis, job: Job, j: JobId, token: Token, outcome: Outcome, maxRetries: nat)
    modifies redis
    ensures redis.View() == AfterProcess(old(redis.View()), job, j, token, outcome, maxRetries)
  {
    match outcome
    case Answer(status, retryAfter, payload, message) =>
      if status == LimitHit && job.kind != RefreshAll && job.retries < maxRetries {
        redis.RequeueJob(j, Some(RETRY_MESSAGE), RetryDelay(retryAfter, job.retries), Some(job.retries + 1));
        return;
      }
      var _ := redis.FinishJob(j, token, TerminalStatus(status), Some(payload), message);
    case Raised =>
      var _ := redis.FinishJob(j, token, JobStore.Failed, None, Some(ERROR_MESSAGE));
    case Cancelled =>
      redis.RequeueJob(j, Some(CANCEL_MESSAGE), 0.0, None);
  }

  /** `claim_next_job` without interference: read, claim, and acknowledge an entry whose job is not queued. */
  function AfterClaimNext(s: Store, token: Token): Store {
    match NextEntry(s.log)
    case None => s
    case Some(e) =>
      var read := AfterDeliver(s, e);
      if ClaimSucceeds(read, e) then AfterClaim(read, e, token) else AfterAck(read, e)
  }

  /**
   The entry read is the oldest of the most urgent stream; a queued job of it is taken for two minutes under the token,
   and the entry of any other job is acknowledged.
   */
  lemma ClaimNextDoes(s: Store, token: Token)
    requires forall e | 0 <= e < |s.log| :: s.log[e].job < |s.jobs|
    ensures var s' := AfterClaimNext(s, token);
            match NextEntry(s.log)
            case None => s' == s && forall e | 0 <= e < |s.log| :: s.log[e].state != Waiting
            case Some(e) =>
              && e < |s.log| && s.log[e].state == Waiting
              && var j := s.log[e].job;
                 if s.jobs[j].status == Queued then
                   && HeldWith(s', j, token) && s'.jobs[j].entry == Some(e) && j in s'.active
                   && s'.active[j] == s.now + 120.0 && s'.log == s.log[e := s.log[e].(state := Pending)]
                 else s'.jobs == s.jobs && s'.log == s.log[e := s.log[e].(state := Acknowledged)]
  {
    NextEntryIsMostUrgent(s.log);
  }

  method ClaimNextJob(redis: Redis, token: Token) returns (claimed: Option<JobId>)
    modifies redis
    ensures redis.View() == AfterClaimNext(old(redis.View()), token)
    ensures claimed.Some? ==> Holds(redis.View(), claimed.value, token) && LeaseLive(redis.View(), claimed.value)
    ensures claimed.None? ==> redis.jobs == old(redis.jobs)
  {
    NextEntryIsMostUrgent(redis.log);
    var entry := redis.ReadNext();
    claimed := None;
    if entry.Some? {
      var won := redis.ClaimEntry(entry.value, token);
      if won {
        claimed := Some(redis.log[entry.value].job);
      } else {
        redis.AckEntry(entry.value);
      }
    }
  }

  /**
   The worker that still holds its claim ends it: the job is settled with the status of its outcome,
   or waits in the schedule with one retry more, never beyond the limit, or is back in its stream with
   its retries as they were when the worker was cancelled.
   */
  lemma ProcessEndsTheClaim(c: Settings, w: World, j: JobId, token: Token, outcome: Outcome)
    requires Reachable(c, w) && Holds(w.store, j, token)
    ensures var job := w.store.jobs[j];
            var s' := AfterProcess(w.store, job, j, token, outcome, c.maxRetries);
            && j !in s'.active && !Holds(s', j, token)
            && (Done(s', j) <==> !Retries(job, outcome, c.maxRetries) && !outcome.Cancelled?)
            && (Done(s', j) ==>
                 s'.jobs[j].status == if outcome.Raised? then JobStore.Failed else TerminalStatus(outcome.status))
            && (Retries(job, outcome, c.maxRetries) ==>
                  && s'.jobs[j].status == Queued && j in s'.scheduled && s'.now < s'.scheduled[j]
                  && s'.jobs[j].retries == job.retries + 1 <= c.maxRetries)
            && (outcome.Cancelled? ==>
                  && s'.jobs[j].status == Queued && s'.jobs[j].retries == job.retries
                  && Waits(s', j, |w.store.log|))
  {
    var job := w.store.jobs[j];
    ReachableInv(c, w);
    if Retries(job, outcome, c.maxRetries) {
      RetryDelayPositive(outcome.retryAfter, job.retries);
    } else if outcome.Answer? {
      FinishEndsTheClaim(w.store, j, token, TerminalStatus(outcome.status), Some(outcome.payload), outcome.message);
    } else if outcome.Raised? {
      FinishEndsTheClaim(w.store, j, token, JobStore.Failed, None, Some(ERROR_MESSAGE));
    } else {
      CancelEndsTheClaim(w.store, j, token, Some(CANCEL_MESSAGE));
    }
  }

  lemma FinishEndsTheClaim(
    s: Store, j: JobId, token: Token, status: Status, result: Option<string>, message: Option<string>)
    requires Holds(s, j, token) && Terminal(status)
    ensures var s' := AfterFinish(s, j, token, status, result, message);
            j !in s'.active && !Holds(s', j, token) && Done(s', j) && s'.jobs[j].status == status
  {
  }

  lemma CancelEndsTheClaim(s: Store, j: JobId, token: Token, message: Option<string>)
    requires Holds(s, j, token)
    ensures var s' := AfterRequeue(s, j, message, 0.0, None);
            && j !in s'.active && !Holds(s', j, token) && !Done(s', j)
            && Waits(s', j, |s.log|) && s'.jobs[j].retries == s.jobs[j].retries
  {
  }

  lemma {:induction false} PowerAtLeastOne(n: nat)
    ensures PowerOfTwo(n) >= 1
  {
    if n > 0 {
      PowerAtLeastOne(n - 1);
    }
  }

  lemma RetryDelayPositive(retryAfter: Time, retries: nat)
    ensures RetryDelay(retryAfter, retries) >= 1.0 && RetryDelay(retryAfter, retries) >= retryAfter
  {
    PowerAtLeastOne(retries + 1);
  }

  // ---- what the record says afterwards ----

  /** The pause before the next attempt: 2, 4, 8, 16 and 32 seconds for the first five retries, then a minute. */
  function Pause(retries: nat): Time {
    if retries == 0 then 2.0
    else if retries == 1 then 4.0
    else if retries == 2 then 8.0
    else if retries == 3 then 16.0
    else if retries == 4 then 32.0
    else 60.0
  }

  lemma {:induction false} PowerAtLeast64(n: nat)
    requires n >= 6
    ensures PowerOfTwo(n) >= 64
  {
    if n > 6 {
      PowerAtLeast64(n - 1);
    }
  }

  lemma RetryDelayIsPause(retryAfter: Time, retries: nat)
    ensures RetryDelay(retryAfter, retries) == if retryAfter > Pause(retries) then retryAfter else Pause(retries)
  {
    if retries >= 5 {
      PowerAtLeast64(retries + 1);
    } else {
      assert PowerOfTwo(1) == 2 && PowerOfTwo(2) == 4 && PowerOfTwo(3) == 8 && PowerOfTwo(4) == 16;
      assert PowerOfTwo(5) == 32;
    }
  }

  predicate Says(job: Job, status: Status, result: Option<string>, message: Option<string>) {
    job.status == status && job.result == result && job.message == message
  }

  /** `job'` is what the worker leaves of `job`, which it had claimed. */
  predicate Leaves(job: Job, outcome: Outcome, maxRetries: nat, job': Job) {
    && job'.claim == None && job'.entry == job.entry
    && match outcome
       case Answer(status, _, payload, message) =>
         (match status
          case Ready => Says(job', Success, Some(payload), message)
          case Updated => Says(job', Success, Some(payload), message)
          case RefreshDone => Says(job', Success, Some(payload), message)
          case Missing => Says(job', NotFound, Some(payload), message)
          case Stale => Says(job', Skipped, Some(payload), message)
          case Broken => Says(job', JobStore.Failed, Some(payload), message)
          case LimitHit =>
            if job.kind == RefreshAll || job.retries >= maxRetries
            then Says(job', RateLimited, Some(payload), message)
            else
              && Says(job', Queued, job.result, Some("Dadata limit; the job is retried automatically."))
              && job'.retries == job.retries + 1)
       case Raised => Says(job', JobStore.Failed, None, Some("Internal error while processing a Dadata job."))
       case Cancelled =>
         && Says(job', Queued, job.result, Some("Worker stopped; the job is back in the queue."))
         && job'.retries == job.retries
  }

  /**
   A job that is put off is due after its pause, or later if the API asks for that, and has no entry until then; one
   given back has one more entry, in its stream; one that is settled has none.
   */
  ghost predicate Requeues(s: Store, s': Store, j: JobId, outcome: Outcome, maxRetries: nat)
    requires j < |s.jobs| == |s'.jobs|
  {
    var job := s.jobs[j];
    if s'.jobs[j].status == Queued && outcome.Answer? then
      && j in s'.scheduled && |s'.log| == |s.log|
      && s'.scheduled[j] - s.now
         == if outcome.retryAfter > Pause(job.retries) then outcome.retryAfter else Pause(job.retries)
    else
      && s'.scheduled == s.scheduled
      && if outcome.Cancelled? then OneMoreEntry(s.log, s'.log, j, job.kind) else |s'.log| == |s.log|
  }

  /** Every outcome of a job has its record, word by word, and its place in the queue. */
  lemma WorkerRecords(c: Settings, w: World, j: JobId, token: Token, outcome: Outcome)
    requires Reachable(c, w) && Holds(w.store, j, token)
    ensures var s' := AfterProcess(w.store, w.store.jobs[j], j, token, outcome, c.maxRetries);
            && |s'.jobs| == |w.store.jobs|
            && Leaves(w.store.jobs[j], outcome, c.maxRetries, s'.jobs[j])
            && Requeues(w.store, s', j, outcome, c.maxRetries)
  {
    JobsFitTheirStreams(c, w, j);
    RetryDelayIsPause(if outcome.Answer? then outcome.retryAfter else 0.0, w.store.jobs[j].retries);
  }

  /** The action of the protocol that the worker performs. */
  function ProcessAction(job: Job, j: JobId, token: Token, outcome: Outcome, maxRetries: nat): Action {
    if Retries(job, outcome, maxRetries) then Retry(j, token, outcome.retryAfter)
    else
      match outcome
      case Answer(status, _, payload, message) => Finish(j, token, TerminalStatus(status), Some(payload), message)
      case Raised => Finish(j, token, JobStore.Failed, None, Some(ERROR_MESSAGE))
      case Cancelled => Cancel(j, token)
  }

  /** What the code of the worker does is a step of the protocol. */
  lemma ProcessIsProtocolStep(c: Settings, w: World, j: JobId, token: Token, outcome: Outcome)
    requires Holds(w.store, j, token)
    ensures var job := w.store.jobs[j];
            var a := ProcessAction(job, j, token, outcome, c.maxRetries);
            Enabled(c, w, a) && Next(c, w, a).store == AfterProcess(w.store, job, j, token, outcome, c.maxRetries)
  {
  }

  /** So every theorem about reachable states covers what the worker leaves behind. */
  lemma ProcessStaysReachable(c: Settings, w: World, j: JobId, token: Token, outcome: Outcome)
    requires Reachable(c, w) && Holds(w.store, j, token)
    ensures Reachable(c, w.(store := AfterProcess(w.store, w.store.jobs[j], j, token, outcome, c.maxRetries)))
  {
    ProcessIsProtocolStep(c, w, j, token, outcome);
    ReachableNext(c, w, ProcessAction(w.store.jobs[j], j, token, outcome, c.maxRetries));
  }

  // ---- retries over a run ----

  function RetriesOf(actions: seq<Action>, j: JobId): nat {
    if actions == [] then 0
    else (if actions[0].Retry? && actions[0].job == j then 1 else 0) + RetriesOf(actions[1..], j)
  }

  lemma EnqueueKeepsRetries(s: Store, cap: nat, r: Request, j: JobId)
    requires j < |s.jobs|
    ensures j < |AfterEnqueue(s, cap, r).jobs| && AfterEnqueue(s, cap, r).jobs[j].retries == s.jobs[j].retries
  {
  }

  lemma RecoverKeepsRetries(s: Store, k: JobId, claimed: Option<EntryId>, message: string, j: JobId)
    requires j < |s.jobs|
    ensures j < |AfterRecover(s, k, claimed, message).jobs|
    ensures AfterRecover(s, k, claimed, message).jobs[j].retries == s.jobs[j].retries
  {
    if k < |s.jobs| && Live(s.jobs[k]) {
      assert Reclaim(s, k, claimed, message).jobs[j].retries == s.jobs[j].retries;
    }
  }

  lemma RetriesMove(c: Settings, w: World, a: Action, j: JobId)
    requires Enabled(c, w, a) && j < |w.store.jobs|
    ensures j < |Next(c, w, a).store.jobs|
    ensures Next(c, w, a).store.jobs[j].retries == w.store.jobs[j].retries + RetriesOf([a], j)
  {
    assert [a][1..] == [];
    match a
    case Enqueue(r) => EnqueueKeepsRetries(w.store, c.maxActiveJobs, r, j);
    case EnqueueChild(p) =>
      EnqueueKeepsRetries(w.store, c.maxActiveJobs, ChildRequest(p, w.sessions[p].groups[w.sessions[p].queued]), j);
    case Finish(k, t, status, result, message) =>
    case RecoverEntry(e) => RecoverKeepsRetries(w.store, w.store.log[e].job, Some(e), RECOVER_MESSAGE, j);
    case RecoverExpired(k) => RecoverKeepsRetries(w.store, k, None, RECOVER_MESSAGE, j);
    case _ =>
  }

  lemma {:induction false} RetriesAddUp(c: Settings, w: World, actions: seq<Action>, j: JobId)
    requires ValidRun(c, w, actions) && j < |w.store.jobs|
    ensures j < |Run(c, w, actions).store.jobs|
    ensures Run(c, w, actions).store.jobs[j].retries == w.store.jobs[j].retries + RetriesOf(actions, j)
    decreases |actions|
  {
    if actions != [] {
      RetriesMove(c, w, actions[0], j);
      assert [actions[0]][1..] == [];
      RetriesAddUp(c, Next(c, w, actions[0]), actions[1..], j);
    }
  }

  /** Over any run, crashes and recoveries included, a job is retried at most DADATA_MAX_RETRIES times. */
  lemma RetriesNeverExceedTheLimit(c: Settings, w: World, actions: seq<Action>, j: JobId)
    requires Inv(c, w) && ValidRun(c, w, actions) && j < |w.store.jobs|
    ensures w.store.jobs[j].retries + RetriesOf(actions, j) <= c.maxRetries
  {
    RetriesAddUp(c, w, actions, j);
    RunKeeps(c, w, actions);
  }
}
