/**
 The processes around the queue: web processes that enqueue, workers that read, claim, finish and
 crash, recovery passes, and the parents of full refreshes. One action is one atomic command of one
 process; a run is any interleaving of actions.
 */
module JobProtocol {
  import opened Options
  import opened JobStore

  /** DADATA_MAX_ACTIVE_MANUAL_JOBS_PER_USER, DADATA_MAX_RETRIES and DADATA_REFRESH_BATCH_SIZE. */
  datatype Settings = Settings(maxActiveJobs: nat, maxRetries: nat, batchSize: nat)

  /** One INN and the number of organizations that carry it. */
  datatype Group = Group(inn: string, size: nat)

  /** What an initialisation of a parent finds: how many jobs there are, its live children, and its progress. */
  datatype Found = Found(jobs: nat, live: set<JobId>, progress: Progress)

  /**
   A parent inside its batch loop: `queued` children enqueued, the current batch began at `batchStart`. A
   parent that was recovered or given back begins a further attempt, and `found` is what it left behind.
   */
  datatype Session = Session(groups: seq<Group>, queued: nat, batchStart: nat, attempt: nat, found: Found)

  /**
   What Redis holds, and what processes remember between two commands: `hands` are entries read but
   not yet claimed, `doomed` are entries whose claim failed and whose XACK is still to come, `issued`
   counts the claim tokens handed out so far.
   */
  datatype World = World(
    store: Store, hands: set<EntryId>, doomed: set<EntryId>, issued: Token, sessions: map<JobId, Session>)

  datatype Action =
    | Enqueue(request: Request)
    | Deliver(entry: EntryId)
    | Claim(entry: EntryId)
    | AckFailedClaim(entry: EntryId)
    | Crash(entry: EntryId)
    | Heartbeat(job: JobId, token: Token)
    | Finish(job: JobId, token: Token, status: Status, result: Option<string>, message: Option<string>)
    | Retry(job: JobId, token: Token, retryAfter: Time)
    | Cancel(job: JobId, token: Token)
    | Promote(job: JobId)
    | FailPromotion(job: JobId)
    | RecoverEntry(entry: EntryId)
    | RecoverExpired(job: JobId)
    | Tick(elapsed: Time)
    | BeginRefresh(parent: JobId, groups: seq<Group>)
    | EnqueueChild(parent: JobId)
    | PollProgress(parent: JobId)

  /** Actions that put a job back into its queue. */
  predicate Returns(a: Action) {
    a.RecoverEntry? || a.RecoverExpired? || a.Retry? || a.Cancel?
  }

  const RETRY_MESSAGE := "Dadata limit; the job is retried automatically."
  const CANCEL_MESSAGE := "Worker stopped; the job is back in the queue."
  const RECOVER_MESSAGE := "Job recovered after a worker stopped."

  const START: World := World(EMPTY, {}, {}, 0, map[])

  function Min(a: nat, b: nat): nat {
    if a < b then a else b
  }

  function PowerOfTwo(n: nat): nat {
    if n == 0 then 1 else 2 * PowerOfTwo(n - 1)
  }

  /** The delay `process_job` asks for before the attempt after `retries` retries. */
  function RetryDelay(retryAfter: Time, retries: nat): Time {
    var backoff := Min(60, PowerOfTwo(retries + 1)) as real;
    if retryAfter < backoff then backoff else retryAfter
  }

  function SumSizes(groups: seq<Group>): nat {
    if groups == [] then 0 else SumSizes(groups[..|groups| - 1]) + groups[|groups| - 1].size
  }

  function BatchEnd(c: Settings, session: Session): nat {
    Min(session.batchStart + (if c.batchSize < 1 then 1 else c.batchSize), |session.groups|)
  }

  predicate DistinctInns(groups: seq<Group>) {
    forall a, b | 0 <= a < b < |groups| :: groups[a].inn != groups[b].inn
  }

  function ChildRequest(parent: JobId, group: Group): Request {
    Request(RefreshAllItem, None, RefreshItem(parent, group.inn), Some(parent), group.size)
  }

  /** Only a parent session enqueues children, under keys that name it. */
  predicate PublicRequest(r: Request) {
    r.parent.None? && !r.key.RefreshItem? && r.kind != RefreshAllItem
  }

  function LiveChildren(parent: JobId, jobs: seq<Job>): set<JobId> {
    set j | 0 <= j < |jobs| && jobs[j].parent == Some(parent) && Live(jobs[j])
  }

  function BeginSession(w: World, p: JobId, groups: seq<Group>): Session {
    Session(groups, 0, 0, if p in w.sessions then w.sessions[p].attempt + 1 else 1,
            Found(|w.store.jobs|, LiveChildren(p, w.store.jobs), ProgressOf(w.store, p)))
  }

  /**
   When an action can happen. Finish, heartbeat, promotion and recovery can come from anybody at any
   time with any argument. Retry and cancel call `requeue_job`, which has no fence of its own; their
   caller must still hold the current claim. A parent can be initialised again and again; the loop of its
   attempt before has stopped by then.
   */
  predicate Enabled(c: Settings, w: World, a: Action) {
    match a
    case Enqueue(r) => PublicRequest(r)
    case Deliver(e) => e < |w.store.log| && w.store.log[e].state == Waiting
    case Claim(e) => e in w.hands
    case AckFailedClaim(e) => e in w.doomed
    case Retry(j, t, _) =>
      Holds(w.store, j, t) && w.store.jobs[j].kind != RefreshAll && w.store.jobs[j].retries < c.maxRetries
    case Cancel(j, t) => Holds(w.store, j, t)
    case RecoverEntry(e) => e < |w.store.log| && w.store.log[e].state == Pending
    case Tick(d) => d >= 0.0
    case BeginRefresh(p, groups) =>
      DistinctInns(groups) && forall k | 0 <= k < |groups| :: groups[k].size >= 1
    case EnqueueChild(p) => p in w.sessions && w.sessions[p].queued < BatchEnd(c, w.sessions[p])
    case PollProgress(p) => p in w.sessions && w.sessions[p].queued == BatchEnd(c, w.sessions[p])
    case Crash(_) => true
    case Heartbeat(_, _) => true
    case Finish(_, _, _, _, _) => true
    case Promote(_) => true
    case FailPromotion(_) => true
    case RecoverExpired(_) => true
  }

  function NextStore(c: Settings, w: World, a: Action): Store
    requires Enabled(c, w, a)
  {
    var s := w.store;
    match a
    case Enqueue(r) => AfterEnqueue(s, c.maxActiveJobs, r)
    case Deliver(e) => AfterDeliver(s, e)
    case Claim(e) => AfterClaim(s, e, w.issued)
    case AckFailedClaim(e) => AfterAck(s, e)
    case Crash(_) => s
    case Heartbeat(j, t) => AfterHeartbeat(s, j, t)
    case Finish(j, t, status, result, message) => AfterFinish(s, j, t, status, result, message)
    case Retry(j, t, retryAfter) =>
      var retries := s.jobs[j].retries;
      AfterRequeue(s, j, Some(RETRY_MESSAGE), RetryDelay(retryAfter, retries), Some(retries + 1))
    case Cancel(j, _) => AfterRequeue(s, j, Some(CANCEL_MESSAGE), 0.0, None)
    case Promote(j) => AfterPromote(s, j)
    case FailPromotion(j) => AfterPromoteFailure(s, j)
    case RecoverEntry(e) => AfterRecover(s, s.log[e].job, Some(e), RECOVER_MESSAGE)
    case RecoverExpired(j) => AfterRecover(s, j, None, RECOVER_MESSAGE)
    case Tick(d) => AfterTick(s, d)
    case BeginRefresh(p, groups) => AfterInitProgress(s, p, SumSizes(groups))
    case EnqueueChild(p) =>
      var session := w.sessions[p];
      AfterEnqueue(s, c.maxActiveJobs, ChildRequest(p, session.groups[session.queued]))
    case PollProgress(_) => s
  }

  /** What the poll of a parent decides once its batch is enqueued. */
  predicate BatchSettled(s: Store, p: JobId, session: Session)
    requires session.queued <= |session.groups|
  {
    ProgressOf(s, p).processed >= SumSizes(session.groups[..session.queued])
  }

  function Next(c: Settings, w: World, a: Action): World
    requires Enabled(c, w, a)
  {
    var w' := w.(store := NextStore(c, w, a));
    match a
    case Deliver(e) => w'.(hands := w.hands + {e})
    case Claim(e) =>
      var read := w'.(hands := w.hands - {e}, issued := w.issued + 1);
      if ClaimSucceeds(w.store, e) then read else read.(doomed := w.doomed + {e})
    case AckFailedClaim(e) => w'.(doomed := w.doomed - {e})
    case Crash(e) => w'.(hands := w.hands - {e}, doomed := w.doomed - {e})
    case BeginRefresh(p, groups) => w'.(sessions := w.sessions[p := BeginSession(w, p, groups)])
    case EnqueueChild(p) =>
      w'.(sessions := w.sessions[p := w.sessions[p].(queued := w.sessions[p].queued + 1)])
    case PollProgress(p) =>
      var session := w.sessions[p];
      if BatchSettled(w.store, p, session) then w'.(sessions := w.sessions[p := session.(batchStart := session.queued)])
      else w'
    case _ => w'
  }

  // ---- runs ----

  /** Every action of the list is enabled when its turn comes. */
  predicate ValidRun(c: Settings, w: World, actions: seq<Action>)
    decreases |actions|
  {
    actions == [] || (Enabled(c, w, actions[0]) && ValidRun(c, Next(c, w, actions[0]), actions[1..]))
  }

  function Run(c: Settings, w: World, actions: seq<Action>): World
    requires ValidRun(c, w, actions)
    decreases |actions|
  {
    if actions == [] then w else Run(c, Next(c, w, actions[0]), actions[1..])
  }
}
