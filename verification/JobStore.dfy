/**
 The job queue as Redis stores it, and each atomic step on it as a function from store to store.

 A job identifier is the position of its record in `jobs` and a stream entry identifier is the
 position of the entry in `log`: uuid4 and `XADD *` only ever hand out fresh identifiers, so
 creation order names them without loss. The three streams share one log; every entry carries
 the name of its stream.
 */
module JobStore {
  import opened Options

  type JobId = nat
  type EntryId = nat
  type UserId = nat
  type Token = nat
  type Time = real

  const JOB_LEASE_SECONDS: Time := 120.0
  const JOB_STATUS_TTL_SECONDS: Time := 86400.0

  datatype Kind = Lookup | RefreshOne | RefreshAll | RefreshAllItem
  datatype Queue = ManualHigh | ManualNormal | FullRefreshLow
  datatype Status = Queued | Running | Success | Failed | RateLimited | NotFound | Skipped
  datatype DedupeKey = FullRefresh | InnGroup(inn: string) | RefreshItem(parent: JobId, itemInn: string)

  predicate Terminal(status: Status) {
    !status.Queued? && !status.Running?
  }

  datatype Job = Job(
    kind: Kind, status: Status, queue: Queue, key: DedupeKey,
    owner: Option<UserId>, subscribers: seq<UserId>,
    parent: Option<JobId>, progressWeight: int,
    claim: Option<Token>, entry: Option<EntryId>, retries: nat,
    result: Option<string>, message: Option<string>,
    createdAt: Time, updatedAt: Time)

  /** `Waiting` has not been read by the consumer group yet, `Pending` is delivered but not acknowledged. */
  datatype Delivery = Waiting | Pending | Acknowledged
  datatype Entry = Entry(queue: Queue, job: JobId, state: Delivery)

  datatype Progress = Progress(total: int, processed: int, counts: map<Status, int>)

  datatype Store = Store(
    jobs: seq<Job>,
    log: seq<Entry>,
    active: map<JobId, Time>,
    scheduled: map<JobId, Time>,
    dedupe: map<DedupeKey, JobId>,
    slots: map<UserId, map<JobId, Time>>,
    progress: map<JobId, Progress>,
    now: Time)

  datatype Request = Request(
    kind: Kind, user: Option<UserId>, key: DedupeKey, parent: Option<JobId>, progressWeight: int)

  datatype Enqueued = Existing(id: JobId) | Created(id: JobId) | Refused

  // ---- reading ----

  predicate Live(job: Job) {
    !Terminal(job.status)
  }

  predicate Holds(s: Store, j: JobId, token: Token) {
    j < |s.jobs| && s.jobs[j].status == Running && s.jobs[j].claim == Some(token)
  }

  function ProgressOf(s: Store, parent: JobId): Progress {
    if parent in s.progress then s.progress[parent] else Progress(0, 0, map[])
  }

  function CountOf(p: Progress, status: Status): int {
    if status in p.counts then p.counts[status] else 0
  }

  function SlotsOf(s: Store, user: UserId): map<JobId, Time> {
    if user in s.slots then s.slots[user] else map[]
  }

  function QueueOf(kind: Kind): Queue {
    match kind
    case Lookup => ManualHigh
    case RefreshOne => ManualNormal
    case RefreshAll => FullRefreshLow
    case RefreshAllItem => FullRefreshLow
  }

  /** The user a job is charged to: only lookups and single refreshes have one. */
  function Requester(r: Request): Option<UserId> {
    if r.kind == Lookup || r.kind == RefreshOne then r.user else None
  }

  function EffectiveWeight(weight: int): nat {
    if weight < 1 then 1 else weight
  }

  // ---- the pieces the scripts share ----

  /** XACK: it only touches an entry that is pending in the group. */
  function Acknowledge(log: seq<Entry>, e: EntryId): seq<Entry> {
    if e < |log| && log[e].state == Pending then log[e := log[e].(state := Acknowledged)] else log
  }

  function AcknowledgeOf(log: seq<Entry>, entry: Option<EntryId>): seq<Entry> {
    match entry
    case Some(e) => Acknowledge(log, e)
    case None => log
  }

  /** XADD to the stream a job belongs to. */
  function AddEntry(log: seq<Entry>, queue: Queue, j: JobId): seq<Entry> {
    log + [Entry(queue, j, Waiting)]
  }

  function LiveSlots(slots: map<JobId, Time>, now: Time): map<JobId, Time> {
    map j | j in slots && now < slots[j] :: slots[j]
  }

  function Subscribe(subscribers: seq<UserId>, user: Option<UserId>): seq<UserId> {
    if user.Some? && user.value !in subscribers then subscribers + [user.value] else subscribers
  }

  // ---- enqueue ----

  function NewJob(r: Request, now: Time): Job {
    Job(r.kind, Queued, QueueOf(r.kind), r.key, Requester(r),
        if Requester(r).Some? then [Requester(r).value] else [],
        r.parent, r.progressWeight, None, None, 0, None, None, now, now)
  }

  predicate Duplicates(s: Store, r: Request) {
    r.key in s.dedupe && s.dedupe[r.key] < |s.jobs|
  }

  predicate OverCap(s: Store, cap: nat, r: Request) {
    Requester(r).Some? && |LiveSlots(SlotsOf(s, Requester(r).value), s.now)| >= cap
  }

  function EnqueueOutcome(s: Store, cap: nat, r: Request): Enqueued {
    if Duplicates(s, r) then Existing(s.dedupe[r.key])
    else if OverCap(s, cap, r) then Refused
    else Created(|s.jobs|)
  }

  /** ZREMRANGEBYSCORE on the requester's active set. */
  function PurgeSlots(s: Store, r: Request): Store {
    match Requester(r)
    case Some(u) => s.(slots := s.slots[u := LiveSlots(SlotsOf(s, u), s.now)])
    case None => s
  }

  function TakeSlot(s: Store, r: Request, j: JobId): map<UserId, map<JobId, Time>> {
    match Requester(r)
    case Some(u) => s.slots[u := SlotsOf(s, u)[j := s.now + JOB_STATUS_TTL_SECONDS]]
    case None => s.slots
  }

  function InsertJob(s: Store, r: Request): Store {
    s.(jobs := s.jobs + [NewJob(r, s.now)],
       dedupe := s.dedupe[r.key := |s.jobs|],
       log := AddEntry(s.log, QueueOf(r.kind), |s.jobs|),
       slots := TakeSlot(s, r, |s.jobs|))
  }

  function AfterEnqueue(s: Store, cap: nat, r: Request): Store {
    if Duplicates(s, r) then
      var j := s.dedupe[r.key];
      s.(jobs := s.jobs[j := s.jobs[j].(subscribers := Subscribe(s.jobs[j].subscribers, Requester(r)))])
    else
      var purged := PurgeSlots(s.(dedupe := s.dedupe - {r.key}), r);
      if OverCap(s, cap, r) then purged else InsertJob(purged, r)
  }

  // ---- delivery and claim ----

  /** XREADGROUP `>`: the entry becomes pending for the reader. */
  function AfterDeliver(s: Store, e: EntryId): Store {
    if e < |s.log| && s.log[e].state == Waiting then s.(log := s.log[e := s.log[e].(state := Pending)]) else s
  }

  predicate ClaimSucceeds(s: Store, e: EntryId) {
    e < |s.log| && s.log[e].job < |s.jobs| && s.jobs[s.log[e].job].status == Queued
  }

  /** The claim script together with the write of the entry it came from. */
  function AfterClaim(s: Store, e: EntryId, token: Token): Store {
    if ClaimSucceeds(s, e) then
      var j := s.log[e].job;
      s.(jobs := s.jobs[j := s.jobs[j].(status := Running, claim := Some(token), entry := Some(e), updatedAt := s.now)],
         active := s.active[j := s.now + JOB_LEASE_SECONDS])
    else s
  }

  function AfterAck(s: Store, e: EntryId): Store {
    s.(log := Acknowledge(s.log, e))
  }

  // ---- heartbeat and finish ----

  function AfterHeartbeat(s: Store, j: JobId, token: Token): Store {
    if Holds(s, j, token) then s.(active := s.active[j := s.now + JOB_LEASE_SECONDS]) else s
  }

  function Bump(p: Progress, status: Status, weight: nat): Progress {
    p.(processed := p.processed + weight, counts := p.counts[status := CountOf(p, status) + weight])
  }

  function ProgressAfter(s: Store, job: Job, status: Status): map<JobId, Progress> {
    match job.parent
    case Some(p) => s.progress[p := Bump(ProgressOf(s, p), status, EffectiveWeight(job.progressWeight))]
    case None => s.progress
  }

  function SlotsAfter(slots: map<UserId, map<JobId, Time>>, owner: Option<UserId>, j: JobId)
    : map<UserId, map<JobId, Time>>
  {
    match owner
    case Some(u) => if u in slots then slots[u := slots[u] - {j}] else slots
    case None => slots
  }

  function DedupeAfter(dedupe: map<DedupeKey, JobId>, key: DedupeKey, j: JobId): map<DedupeKey, JobId> {
    if key in dedupe && dedupe[key] == j then dedupe - {key} else dedupe
  }

  predicate FinishSucceeds(s: Store, j: JobId, token: Token, status: Status) {
    Terminal(status) && Holds(s, j, token)
  }

  function AfterFinish(s: Store, j: JobId, token: Token, status: Status,
                       result: Option<string>, message: Option<string>): Store
  {
    if FinishSucceeds(s, j, token, status) then
      var job := s.jobs[j];
      s.(jobs := s.jobs[j := job.(status := status, result := result, message := message,
                                  updatedAt := s.now, claim := None)],
         active := s.active - {j},
         log := AcknowledgeOf(s.log, job.entry),
         progress := ProgressAfter(s, job, status),
         slots := SlotsAfter(s.slots, job.owner, j),
         dedupe := DedupeAfter(s.dedupe, job.key, j))
    else s
  }

  // ---- back to the queue ----

  /** `requeue_job`, exactly as written: it looks neither at the status nor at a claim token. */
  function AfterRequeue(s: Store, j: JobId, message: Option<string>, delay: Time, retries: Option<nat>): Store {
    if j < |s.jobs| then
      var job := s.jobs[j];
      var acked := AcknowledgeOf(s.log, job.entry);
      s.(jobs := s.jobs[j := job.(status := Queued, claim := None, message := message,
                                  retries := retries.GetOr(job.retries), updatedAt := s.now)],
         active := s.active - {j},
         scheduled := if delay > 0.0 then s.scheduled[j := s.now + delay] else s.scheduled,
         log := if delay > 0.0 then acked else AddEntry(acked, job.queue, j))
    else s
  }

  predicate PromoteSucceeds(s: Store, j: JobId) {
    j in s.scheduled && j < |s.jobs| && s.jobs[j].status == Queued
  }

  /** One round of `promote_scheduled_jobs`: ZREM decides who may add the entry. */
  function AfterPromote(s: Store, j: JobId): Store {
    var removed := s.(scheduled := s.scheduled - {j});
    if PromoteSucceeds(s, j) then removed.(log := AddEntry(s.log, s.jobs[j].queue, j)) else removed
  }

  /** The XADD of a promotion failed: the job goes back to the schedule, a second later. */
  function AfterPromoteFailure(s: Store, j: JobId): Store {
    if PromoteSucceeds(s, j) then s.(scheduled := s.scheduled[j := s.now + 1.0]) else s
  }

  predicate LeaseLive(s: Store, j: JobId) {
    j in s.active && s.now < s.active[j]
  }

  predicate RecoverSucceeds(s: Store, j: JobId, claimed: Option<EntryId>) {
    && j < |s.jobs|
    && Live(s.jobs[j])
    && !(s.jobs[j].status == Running && LeaseLive(s, j))
    && !(claimed.None? && s.jobs[j].status == Queued)
  }

  /** The part of the recovery script that returns the job to its stream. */
  function Reclaim(s: Store, j: JobId, claimed: Option<EntryId>, message: string): Store
    requires j < |s.jobs|
  {
    var job := s.jobs[j];
    var source := if claimed.Some? then claimed else job.entry;
    s.(jobs := s.jobs[j := job.(status := Queued, claim := None, entry := source,
                                message := Some(message), updatedAt := s.now)],
       active := s.active - {j},
       log := AddEntry(AcknowledgeOf(s.log, source), job.queue, j))
  }

  /** The recovery script, for a stale pending entry (`claimed`) or for an expired lease (`None`). */
  function AfterRecover(s: Store, j: JobId, claimed: Option<EntryId>, message: string): Store {
    if !(j < |s.jobs|) || Terminal(s.jobs[j].status) then
      s.(active := s.active - {j}, log := AcknowledgeOf(s.log, claimed))
    else if s.jobs[j].status == Running && LeaseLive(s, j) then s
    else if claimed.None? && s.jobs[j].status != Running then s.(active := s.active - {j})
    else Reclaim(s, j, claimed, message)
  }

  /** HSET of `total` and `processed`; the status counters of an earlier round are left alone. */
  function Initialised(progress: Progress, total: int): Progress {
    progress.(total := total, processed := 0)
  }

  function AfterInitProgress(s: Store, parent: JobId, total: int): Store {
    s.(progress := s.progress[parent := Initialised(ProgressOf(s, parent), total)])
  }

  function AfterTick(s: Store, d: Time): Store {
    s.(now := s.now + d)
  }

  const EMPTY: Store := Store([], [], map[], map[], map[], map[], map[], 0.0)

  // ---- which entry is read next ----

  function FirstWaiting(log: seq<Entry>, queue: Queue): Option<EntryId> {
    WaitingFrom(log, queue, 0)
  }

  /** The oldest waiting entry of the stream at or after position `i`. */
  function WaitingFrom(log: seq<Entry>, queue: Queue, i: nat): Option<EntryId>
    requires i <= |log|
    decreases |log| - i
  {
    if i == |log| then None
    else if log[i].queue == queue && log[i].state == Waiting then Some(i)
    else WaitingFrom(log, queue, i + 1)
  }

  /** The workers ask the streams in the order of their priority. */
  function NextEntry(log: seq<Entry>): Option<EntryId> {
    if FirstWaiting(log, ManualHigh).Some? then FirstWaiting(log, ManualHigh)
    else if FirstWaiting(log, ManualNormal).Some? then FirstWaiting(log, ManualNormal)
    else FirstWaiting(log, FullRefreshLow)
  }
}
