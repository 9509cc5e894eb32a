/**
 Redis itself: the keys of the queue as fields, and every script and pipeline of the runtime as a
 method that updates them in place, proved against the step functions of `JobStore`.
 */
module RedisStore {
  import opened Options
  import opened JobStore
  import opened ReadOrder

  // ---- loops over several jobs, as functions ----

  function PromoteEach(s: Store, due: seq<JobId>): Store
    decreases |due|
  {
    if due == [] then s else PromoteEach(AfterPromote(s, due[0]), due[1..])
  }

  function RecoverEach(s: Store, entries: seq<EntryId>, message: string): Store
    decreases |entries|
  {
    if entries == [] then s
    else
      RecoverEach(if entries[0] < |s.log| then AfterRecover(s, s.log[entries[0]].job, Some(entries[0]), message) else s,
                  entries[1..], message)
  }

  function ExpireEach(s: Store, stale: seq<JobId>, message: string): Store
    decreases |stale|
  {
    if stale == [] then s else ExpireEach(AfterRecover(s, stale[0], None, message), stale[1..], message)
  }

  /** How many jobs a pass over claimed entries, or over expired leases, brings back. */
  function RecoveredBy(s: Store, entries: seq<EntryId>, message: string): nat
    decreases |entries|
  {
    if entries == [] then 0
    else if entries[0] >= |s.log| then RecoveredBy(s, entries[1..], message)
    else
      var j := s.log[entries[0]].job;
      (if RecoverSucceeds(s, j, Some(entries[0])) then 1 else 0)
      + RecoveredBy(AfterRecover(s, j, Some(entries[0]), message), entries[1..], message)
  }

  function ExpiredBy(s: Store, stale: seq<JobId>, message: string): nat
    decreases |stale|
  {
    if stale == [] then 0
    else
      (if RecoverSucceeds(s, stale[0], None) then 1 else 0)
      + ExpiredBy(AfterRecover(s, stale[0], None, message), stale[1..], message)
  }

  function DueJobs(s: Store, due: seq<JobId>): set<JobId> {
    set j | j in due && PromoteSucceeds(s, j)
  }

  /** Members in the order of their scores, each once. */
  predicate Ordered(times: map<JobId, Time>, ids: seq<JobId>) {
    && (forall i | 0 <= i < |ids| :: ids[i] in times)
    && (forall i, k | 0 <= i < k < |ids| :: ids[i] != ids[k] && times[ids[i]] <= times[ids[k]])
  }

  /**
   ZRANGEBYSCORE 0 .. now, with or without a limit: members whose time has come, in order; one of them is
   missing only if the list is full and nobody in it is later.
   */
  predicate IsRange(times: map<JobId, Time>, now: Time, limit: Option<nat>, ids: seq<JobId>) {
    && (limit.Some? ==> |ids| <= limit.value)
    && Ordered(times, ids)
    && (forall i | 0 <= i < |ids| :: times[ids[i]] <= now)
    && (forall j | j in times && times[j] <= now && j !in ids ::
          limit == Some(|ids|) && forall i | 0 <= i < |ids| :: times[ids[i]] <= times[j])
  }

  lemma {:induction false} EarliestExists(times: map<JobId, Time>, jobs: set<JobId>)
    requires jobs != {} && forall j | j in jobs :: j in times
    ensures exists first :: first in jobs && forall j | j in jobs :: times[first] <= times[j]
    decreases |jobs|
  {
    var one :| one in jobs;
    if jobs - {one} != {} {
      EarliestExists(times, jobs - {one});
      var first :| first in jobs - {one} && forall j | j in jobs - {one} :: times[first] <= times[j];
      var best := if times[one] <= times[first] then one else first;
      assert best in jobs && forall j | j in jobs :: times[best] <= times[j];
    } else {
      assert jobs == {one};
    }
  }

  method RangeByScore(times: map<JobId, Time>, now: Time, limit: Option<nat>) returns (ids: seq<JobId>)
    ensures IsRange(times, now, limit, ids)
  {
    var rest := set j | j in times && times[j] <= now;
    ids := [];
    while rest != {} && limit != Some(|ids|)
      invariant limit.Some? ==> |ids| <= limit.value
      invariant Ordered(times, ids)
      invariant forall i | 0 <= i < |ids| :: times[ids[i]] <= now && ids[i] !in rest
      invariant forall j: JobId :: j in times && times[j] <= now <==> j in ids || j in rest
      invariant forall i, j | 0 <= i < |ids| && j in rest :: times[ids[i]] <= times[j]
      decreases |rest|
    {
      EarliestExists(times, rest);
      var next :| next in rest && forall j | j in rest :: times[next] <= times[j];
      ids := ids + [next];
      rest := rest - {next};
    }
  }

  lemma {:induction false} OneMoreRound(s: Store, due: seq<JobId>, i: nat)
    requires i < |due|
    ensures PromoteEach(s, due[..i + 1]) == AfterPromote(PromoteEach(s, due[..i]), due[i])
    decreases i
  {
    if i == 0 {
      assert due[..1][1..] == [];
    } else {
      assert due[..i + 1][1..] == due[1..][..i] && due[..i][1..] == due[1..][..i - 1];
      OneMoreRound(AfterPromote(s, due[0]), due[1..], i - 1);
    }
  }

  lemma {:induction false} PassClearsSchedule(s: Store, due: seq<JobId>)
    ensures var s' := PromoteEach(s, due);
            && s'.scheduled == s.scheduled - (set j | j in due)
            && s' == s.(scheduled := s'.scheduled, log := s'.log)
    decreases |due|
  {
    if due == [] {
      assert s.scheduled - (set j | j in due) == s.scheduled;
    } else {
      var next := AfterPromote(s, due[0]);
      PassClearsSchedule(next, due[1..]);
    }
  }

  lemma DueJobsWithoutFirst(s: Store, next: Store, due: seq<JobId>)
    requires due != []
    requires forall k :: PromoteSucceeds(next, k) <==> k != due[0] && PromoteSucceeds(s, k)
    ensures |DueJobs(s, due)| == |DueJobs(next, due[1..])| + (if PromoteSucceeds(s, due[0]) then 1 else 0)
  {
    assert DueJobs(next, due[1..]) == DueJobs(s, due) - {due[0]};
    assert PromoteSucceeds(s, due[0]) <==> due[0] in DueJobs(s, due);
  }

  /** A pass adds exactly one entry per due job that is still scheduled and queued, however often the job is listed. */
  lemma {:induction false} PromotedExactlyOnce(s: Store, due: seq<JobId>)
    ensures |PromoteEach(s, due).log| == |s.log| + |DueJobs(s, due)|
    decreases |due|
  {
    if due == [] {
      assert DueJobs(s, due) == {};
    } else {
      var next := AfterPromote(s, due[0]);
      DueJobsWithoutFirst(s, next, due);
      PromotedExactlyOnce(next, due[1..]);
    }
  }

  /** A second promoter working from the same list finds nothing left to do. */
  lemma SecondPassPromotesNothing(s: Store, due: seq<JobId>)
    ensures PromoteEach(PromoteEach(s, due), due) == PromoteEach(s, due)
  {
    var once := PromoteEach(s, due);
    PassClearsSchedule(s, due);
    NothingLeftToPromote(once, due);
  }

  lemma {:induction false} NothingLeftToPromote(s: Store, due: seq<JobId>)
    requires forall j | j in due :: j !in s.scheduled
    ensures PromoteEach(s, due) == s
    decreases |due|
  {
    if due != [] {
      assert s.scheduled - {due[0]} == s.scheduled;
      NothingLeftToPromote(s, due[1..]);
    }
  }

  // ---- what the recovery passes do ----

  /** A running job whose lease still has time left. */
  predicate RunsOnLease(s: Store, j: JobId) {
    j < |s.jobs| && s.jobs[j].status == Running && j in s.active && s.now < s.active[j]
  }

  lemma RecoveryAddsOne(s: Store, j: JobId, claimed: Option<EntryId>, message: string)
    ensures |AfterRecover(s, j, claimed, message).log|
            == |s.log| + (if RecoverSucceeds(s, j, claimed) then 1 else 0)
  {
  }

  /** A recovery changes no entry but from pending to acknowledged. */
  ghost predicate OnlyAcknowledges(log: seq<Entry>, log': seq<Entry>) {
    && |log| <= |log'|
    && forall e | 0 <= e < |log| ::
         log'[e] == log[e] || (log[e].state == Pending && log'[e] == log[e].(state := Acknowledged))
  }

  /** Live leases stay, and what runs afterwards ran before, on the same lease. */
  ghost predicate LeavesLeases(s: Store, s': Store) {
    && |s'.jobs| == |s.jobs| && s'.now == s.now
    && (forall j: JobId | RunsOnLease(s, j) :: RunsOnLease(s', j))
    && (forall j: JobId | j < |s'.jobs| && s'.jobs[j].status == Running :: s.jobs[j].status == Running)
  }

  lemma RecoveryAcknowledges(s: Store, k: JobId, claimed: Option<EntryId>, message: string)
    ensures OnlyAcknowledges(s.log, AfterRecover(s, k, claimed, message).log)
  {
    AcknowledgeOnly(s.log, claimed);
    if k < |s.jobs| {
      AcknowledgeOnly(s.log, s.jobs[k].entry);
      EntryIsAppended(s.log, AcknowledgeOf(s.log, claimed), s.jobs[k].queue, k);
      EntryIsAppended(s.log, AcknowledgeOf(s.log, s.jobs[k].entry), s.jobs[k].queue, k);
    }
  }

  lemma AcknowledgeOnly(log: seq<Entry>, entry: Option<EntryId>)
    ensures OnlyAcknowledges(log, AcknowledgeOf(log, entry))
  {
  }

  lemma EntryIsAppended(log: seq<Entry>, log': seq<Entry>, queue: Queue, j: JobId)
    requires OnlyAcknowledges(log, log')
    ensures OnlyAcknowledges(log, AddEntry(log', queue, j))
  {
  }

  lemma RecoveryLeavesLeases(s: Store, k: JobId, claimed: Option<EntryId>, message: string)
    ensures LeavesLeases(s, AfterRecover(s, k, claimed, message))
  {
    if RecoverSucceeds(s, k, claimed) {
      ReclaimLeavesLeases(s, k, claimed, message);
    }
  }

  lemma ReclaimLeavesLeases(s: Store, k: JobId, claimed: Option<EntryId>, message: string)
    requires k < |s.jobs| && !RunsOnLease(s, k)
    ensures LeavesLeases(s, Reclaim(s, k, claimed, message))
  {
  }

  /** What a pass returns is the number of entries it adds: each job it brings back is in its stream once more. */
  lemma {:induction false} RecoveredAreCounted(s: Store, entries: seq<EntryId>, message: string)
    ensures |RecoverEach(s, entries, message).log| == |s.log| + RecoveredBy(s, entries, message)
    decreases |entries|
  {
    if entries != [] {
      var e := entries[0];
      if e < |s.log| {
        RecoveryAddsOne(s, s.log[e].job, Some(e), message);
        RecoveredAreCounted(AfterRecover(s, s.log[e].job, Some(e), message), entries[1..], message);
      } else {
        RecoveredAreCounted(s, entries[1..], message);
      }
    }
  }

  lemma {:induction false} ExpiredAreCounted(s: Store, stale: seq<JobId>, message: string)
    ensures |ExpireEach(s, stale, message).log| == |s.log| + ExpiredBy(s, stale, message)
    decreases |stale|
  {
    if stale != [] {
      RecoveryAddsOne(s, stale[0], None, message);
      ExpiredAreCounted(AfterRecover(s, stale[0], None, message), stale[1..], message);
    }
  }

  /** The entry is no longer pending, unless its job runs on a live lease. */
  predicate Handled(s: Store, e: EntryId) {
    e < |s.log| && (s.log[e].state == Pending ==> RunsOnLease(s, s.log[e].job))
  }

  lemma RecoveryHandles(s: Store, e: EntryId, message: string)
    requires e < |s.log|
    ensures Handled(AfterRecover(s, s.log[e].job, Some(e), message), e)
  {
  }

  lemma {:induction false} HandledStays(s: Store, entries: seq<EntryId>, message: string, e: EntryId)
    requires Handled(s, e)
    ensures Handled(RecoverEach(s, entries, message), e)
    decreases |entries|
  {
    if entries != [] {
      if entries[0] < |s.log| {
        var next := AfterRecover(s, s.log[entries[0]].job, Some(entries[0]), message);
        RecoveryAcknowledges(s, s.log[entries[0]].job, Some(entries[0]), message);
        RecoveryLeavesLeases(s, s.log[entries[0]].job, Some(entries[0]), message);
        assert Handled(next, e);
        HandledStays(next, entries[1..], message, e);
      } else {
        HandledStays(s, entries[1..], message, e);
      }
    }
  }

  /** A pass over claimed entries leaves none of them pending but those of jobs that run on a live lease. */
  lemma {:induction false} ClaimedAreHandled(s: Store, entries: seq<EntryId>, message: string, e: EntryId)
    requires e in entries && e < |s.log|
    ensures Handled(RecoverEach(s, entries, message), e)
    decreases |entries|
  {
    if entries[0] >= |s.log| {
      ClaimedAreHandled(s, entries[1..], message, e);
    } else {
      var next := AfterRecover(s, s.log[entries[0]].job, Some(entries[0]), message);
      RecoveryAcknowledges(s, s.log[entries[0]].job, Some(entries[0]), message);
      if entries[0] == e {
        RecoveryHandles(s, e, message);
        HandledStays(next, entries[1..], message, e);
      } else {
        ClaimedAreHandled(next, entries[1..], message, e);
      }
    }
  }

  /** The job does not run, or on a live lease. */
  predicate NotStale(s: Store, j: JobId) {
    j < |s.jobs| && s.jobs[j].status == Running ==> RunsOnLease(s, j)
  }

  lemma {:induction false} NotStaleStays(s: Store, stale: seq<JobId>, message: string, j: JobId)
    requires NotStale(s, j)
    ensures NotStale(ExpireEach(s, stale, message), j)
    decreases |stale|
  {
    if stale != [] {
      var next := AfterRecover(s, stale[0], None, message);
      RecoveryLeavesLeases(s, stale[0], None, message);
      assert NotStale(next, j);
      NotStaleStays(next, stale[1..], message, j);
    }
  }

  lemma RecoveryEndsStale(s: Store, j: JobId, message: string)
    ensures NotStale(AfterRecover(s, j, None, message), j)
  {
  }

  /** A pass over expired leases leaves none of these jobs running on an expired one. */
  lemma {:induction false} StaleAreRecovered(s: Store, stale: seq<JobId>, message: string, j: JobId)
    requires j in stale
    ensures NotStale(ExpireEach(s, stale, message), j)
    decreases |stale|
  {
    var next := AfterRecover(s, stale[0], None, message);
    if stale[0] == j {
      RecoveryEndsStale(s, j, message);
      NotStaleStays(next, stale[1..], message, j);
    } else {
      StaleAreRecovered(next, stale[1..], message, j);
    }
  }

  class Redis {
    var jobs: seq<Job>
    var log: seq<Entry>
    var active: map<JobId, Time>
    var scheduled: map<JobId, Time>
    var dedupe: map<DedupeKey, JobId>
    var slots: map<UserId, map<JobId, Time>>
    var progress: map<JobId, Progress>
    var now: Time

    function View(): Store
      reads this
    {
      Store(jobs, log, active, scheduled, dedupe, slots, progress, now)
    }

    constructor ()
      ensures View() == EMPTY
    {
      jobs, log, active, scheduled, dedupe, slots, progress, now := [], [], map[], map[], map[], map[], map[], 0.0;
    }

    /** The branch of the enqueue script that finds the job already there. */
    method SubscribeTo(existing: JobId, user: Option<UserId>)
      requires existing < |jobs|
      modifies this`jobs
      ensures var job := old(jobs)[existing];
              jobs == old(jobs)[existing := job.(subscribers := Subscribe(job.subscribers, user))]
    {
      if user.Some? && user.value !in jobs[existing].subscribers {
        jobs := jobs[existing := jobs[existing].(subscribers := jobs[existing].subscribers + [user.value])];
      }
    }

    /** SET of the record and of the key, XADD, and the slot of the user. */
    method Insert(request: Request)
      modifies this
      ensures View() == InsertJob(old(View()), request)
    {
      var id := |jobs|;
      var user := Requester(request);
      jobs := jobs + [NewJob(request, now)];
      dedupe := dedupe[request.key := id];
      log := AddEntry(log, QueueOf(request.kind), id);
      if user.Some? {
        slots := slots[user.value := SlotsOf(View(), user.value)[id := now + JOB_STATUS_TTL_SECONDS]];
      }
    }

    method EnqueueJob(request: Request, cap: nat) returns (outcome: Enqueued)
      modifies this
      ensures outcome == EnqueueOutcome(old(View()), cap, request)
      ensures View() == AfterEnqueue(old(View()), cap, request)
    {
      var user := Requester(request);
      if request.key in dedupe && dedupe[request.key] < |jobs| {
        SubscribeTo(dedupe[request.key], user);
        return Existing(dedupe[request.key]);
      }
      dedupe := dedupe - {request.key};
      if user.Some? {
        slots := slots[user.value := LiveSlots(SlotsOf(View(), user.value), now)];
        if |slots[user.value]| >= cap {
          return Refused;
        }
      }
      outcome := Created(|jobs|);
      Insert(request);
    }

    /** One XREADGROUP of one stream. */
    method ReadStream(queue: Queue) returns (found: Option<EntryId>)
      modifies this`log
      ensures found == FirstWaiting(old(log), queue)
      ensures View() == if found.Some? then AfterDeliver(old(View()), found.value) else old(View())
    {
      var i := 0;
      while i < |log|
        invariant 0 <= i <= |log|
        invariant log == old(log) && WaitingFrom(log, queue, i) == WaitingFrom(log, queue, 0)
      {
        if log[i].queue == queue && log[i].state == Waiting {
          log := log[i := log[i].(state := Pending)];
          return Some(i);
        }
        i := i + 1;
      }
      found := None;
    }

    /** The polling round of `claim_next_job`: the streams in the order of their priority. */
    method ReadNext() returns (found: Option<EntryId>)
      modifies this`log
      ensures found == NextEntry(old(log))
      ensures View() == if found.Some? then AfterDeliver(old(View()), found.value) else old(View())
    {
      var queues := [ManualHigh, ManualNormal, FullRefreshLow];
      var i := 0;
      found := None;
      while i < |queues| && found.None?
        invariant 0 <= i <= 3
        invariant found.None? ==> log == old(log) && forall k | 0 <= k < i :: FirstWaiting(old(log), queues[k]).None?
        invariant found.Some? ==>
          && i > 0 && found == FirstWaiting(old(log), queues[i - 1])
          && (forall k | 0 <= k < i - 1 :: FirstWaiting(old(log), queues[k]).None?)
          && View() == AfterDeliver(old(View()), found.value)
      {
        found := ReadStream(queues[i]);
        i := i + 1;
      }
      assert i > 0 && FirstWaiting(old(log), queues[i - 1]) == found;
      assert i > 1 ==> FirstWaiting(old(log), queues[0]).None?;
      assert i > 2 ==> FirstWaiting(old(log), queues[1]).None?;
    }

    method ClaimEntry(e: EntryId, token: Token) returns (claimed: bool)
      requires e < |log|
      modifies this`jobs, this`active
      ensures claimed == ClaimSucceeds(old(View()), e)
      ensures View() == AfterClaim(old(View()), e, token)
    {
      var j := log[e].job;
      if j >= |jobs| || jobs[j].status != Queued {
        return false;
      }
      jobs := jobs[j := jobs[j].(status := Running, updatedAt := now, claim := Some(token))];
      active := active[j := now + JOB_LEASE_SECONDS];
      jobs := jobs[j := jobs[j].(entry := Some(e))];
      claimed := true;
    }

    method AckEntry(e: EntryId)
      modifies this`log
      ensures View() == AfterAck(old(View()), e)
    {
      log := Acknowledge(log, e);
    }

    method HeartbeatJob(j: JobId, token: Token)
      modifies this`active
      ensures View() == AfterHeartbeat(old(View()), j, token)
    {
      if j >= |jobs| || jobs[j].status != Running || jobs[j].claim != Some(token) {
        return;
      }
      active := active[j := now + JOB_LEASE_SECONDS];
    }

    /** The HINCRBY pair of the finish script. */
    method CountSettled(job: Job, status: Status)
      modifies this`progress
      ensures progress == ProgressAfter(old(View()), job, status)
    {
      if job.parent.Some? {
        var weight := if job.progressWeight < 1 then 1 else job.progressWeight;
        var p := ProgressOf(View(), job.parent.value);
        p := p.(processed := p.processed + weight);
        p := p.(counts := p.counts[status := CountOf(p, status) + weight]);
        progress := progress[job.parent.value := p];
      }
    }

    /** The ZREM on the active set of the owner and the guarded DEL of the dedupe key. */
    method ReleaseKeys(job: Job, j: JobId)
      modifies this`slots, this`dedupe
      ensures slots == SlotsAfter(old(slots), job.owner, j) && dedupe == DedupeAfter(old(dedupe), job.key, j)
    {
      if job.owner.Some? && job.owner.value in slots {
        slots := slots[job.owner.value := slots[job.owner.value] - {j}];
      }
      if job.key in dedupe && dedupe[job.key] == j {
        dedupe := dedupe - {job.key};
      }
    }

    method FinishJob(j: JobId, token: Token, status: Status, result: Option<string>, message: Option<string>)
      returns (finished: bool)
      modifies this
      ensures finished == FinishSucceeds(old(View()), j, token, status)
      ensures View() == AfterFinish(old(View()), j, token, status, result, message)
    {
      if !Terminal(status) || j >= |jobs| || jobs[j].status != Running || jobs[j].claim != Some(token) {
        return false;
      }
      var job := jobs[j];
      WriteSettled(j, job.(status := status, result := result, message := message, updatedAt := now, claim := None));
      CountSettled(job, status);
      ReleaseKeys(job, j);
      finished := true;
    }

    /** The SET of the record, the ZREM of the lease and the XACK of the entry. */
    method WriteSettled(j: JobId, job: Job)
      requires j < |jobs|
      modifies this`jobs, this`active, this`log
      ensures jobs == old(jobs)[j := job] && active == old(active) - {j} && log == AcknowledgeOf(old(log), job.entry)
    {
      jobs := jobs[j := job];
      active := active - {j};
      if job.entry.Some? {
        log := Acknowledge(log, job.entry.value);
      }
    }

    method RequeueJob(j: JobId, message: Option<string>, delay: Time, retries: Option<nat>)
      modifies this
      ensures View() == AfterRequeue(old(View()), j, message, delay, retries)
    {
      if j >= |jobs| {
        return;
      }
      var job := jobs[j];
      if retries.Some? {
        job := job.(retries := retries.value);
      }
      jobs := jobs[j := job.(status := Queued, claim := None, message := message, updatedAt := now)];
      active := active - {j};
      if job.entry.Some? {
        log := Acknowledge(log, job.entry.value);
      }
      if delay > 0.0 {
        scheduled := scheduled[j := now + delay];
      } else {
        log := AddEntry(log, job.queue, j);
      }
    }

    /** One round: ZREM, the look at the record, and XADD, which may fail. */
    method PromoteJob(j: JobId, broken: bool) returns (added: bool, failed: bool)
      modifies this`scheduled, this`log
      ensures failed == (broken && PromoteSucceeds(old(View()), j))
                && added == (!broken && PromoteSucceeds(old(View()), j))
      ensures View() == if failed then AfterPromoteFailure(old(View()), j) else AfterPromote(old(View()), j)
      ensures |log| == |old(log)| + (if added then 1 else 0)
    {
      if j !in scheduled {
        assert scheduled - {j} == scheduled;
        return false, false;
      }
      scheduled := scheduled - {j};
      if j >= |jobs| || jobs[j].status != Queued {
        return false, false;
      }
      if broken {
        scheduled := scheduled[j := now + 1.0];
        assert scheduled == old(scheduled)[j := now + 1.0];
        return false, true;
      }
      log := AddEntry(log, jobs[j].queue, j);
      return true, false;
    }

    /**
     A pass over the due jobs. `broken` are the jobs whose XADD fails: the first of them that would be
     promoted goes back to the schedule and the pass ends in the error. The pass then did `n` rounds.
     */
    method PromoteScheduledJobs(limit: nat, broken: set<JobId>)
      returns (promoted: nat, raised: bool, ghost due: seq<JobId>, ghost n: nat)
      modifies this`scheduled, this`log
      ensures IsRange(old(scheduled), now, Some(limit), due) && n <= |due|
      ensures var before := PromoteEach(old(View()), due[..n]);
              && |before.log| == |old(log)| + promoted
              && if raised then n < |due| && due[n] in broken && PromoteSucceeds(before, due[n])
                   && View() == AfterPromoteFailure(before, due[n])
                 else n == |due| && View() == before
    {
      var list := RangeByScore(scheduled, now, Some(limit));
      due, promoted, raised := list, 0, false;
      var i := 0;
      n := 0;
      while i < |list|
        invariant 0 <= i <= |list| && n == i
        invariant View() == PromoteEach(old(View()), list[..i])
        invariant |log| == |old(log)| + promoted
      {
        OneMoreRound(old(View()), list, i);
        var added, failed := PromoteJob(list[i], list[i] in broken);
        if failed {
          return promoted, true, due, i;
        }
        promoted := promoted + (if added then 1 else 0);
        i := i + 1;
        n := i;
      }
      assert list[..i] == list;
    }

    method RecoverJob(j: JobId, claimed: Option<EntryId>, message: string) returns (recovered: bool)
      modifies this
      ensures recovered == RecoverSucceeds(old(View()), j, claimed)
      ensures View() == AfterRecover(old(View()), j, claimed, message)
    {
      if j >= |jobs| || Terminal(jobs[j].status) {
        active := active - {j};
        log := AcknowledgeOf(log, claimed);
        return false;
      }
      if jobs[j].status == Running && j in active && active[j] > now {
        return false;
      }
      if claimed.None? && jobs[j].status != Running {
        active := active - {j};
        return false;
      }
      var source := if claimed.Some? then claimed else jobs[j].entry;
      if claimed.Some? {
        jobs := jobs[j := jobs[j].(entry := claimed)];
      }
      jobs := jobs[j := jobs[j].(status := Queued, message := Some(message), updatedAt := now, claim := None)];
      active := active - {j};
      if source.Some? {
        log := Acknowledge(log, source.value);
      }
      log := AddEntry(log, jobs[j].queue, j);
      recovered := true;
    }

    /** Expired leases are read first, then `entries` is what XAUTOCLAIM hands over. */
    method RecoverStaleJobs(entries: seq<EntryId>, message: string) returns (recovered: nat, ghost stale: seq<JobId>)
      modifies this
      ensures IsRange(old(active), old(now), None, stale)
      ensures View() == ExpireEach(RecoverEach(old(View()), entries, message), stale, message)
      ensures recovered == RecoveredBy(old(View()), entries, message)
                + ExpiredBy(RecoverEach(old(View()), entries, message), stale, message)
    {
      var expired := RangeByScore(active, now, None);
      stale := expired;
      var claimed := RecoverClaimed(entries, message);
      var lapsed := RecoverExpiredLeases(expired, message);
      recovered := claimed + lapsed;
    }

    method RecoverClaimed(entries: seq<EntryId>, message: string) returns (recovered: nat)
      modifies this
      ensures View() == RecoverEach(old(View()), entries, message)
      ensures recovered == RecoveredBy(old(View()), entries, message)
    {
      var i := 0;
      recovered := 0;
      while i < |entries|
        invariant 0 <= i <= |entries|
        invariant RecoverEach(View(), entries[i..], message) == RecoverEach(old(View()), entries, message)
        invariant recovered + RecoveredBy(View(), entries[i..], message) == RecoveredBy(old(View()), entries, message)
      {
        assert entries[i..][1..] == entries[i + 1..];
        if entries[i] < |log| {
          var back := RecoverJob(log[entries[i]].job, Some(entries[i]), message);
          recovered := recovered + (if back then 1 else 0);
        }
        i := i + 1;
      }
    }

    method RecoverExpiredLeases(stale: seq<JobId>, message: string) returns (recovered: nat)
      modifies this
      ensures View() == ExpireEach(old(View()), stale, message)
      ensures recovered == ExpiredBy(old(View()), stale, message)
    {
      var i := 0;
      recovered := 0;
      while i < |stale|
        invariant 0 <= i <= |stale|
        invariant ExpireEach(View(), stale[i..], message) == ExpireEach(old(View()), stale, message)
        invariant recovered + ExpiredBy(View(), stale[i..], message) == ExpiredBy(old(View()), stale, message)
      {
        assert stale[i..][1..] == stale[i + 1..];
        var back := RecoverJob(stale[i], None, message);
        recovered := recovered + (if back then 1 else 0);
        i := i + 1;
      }
    }

    method InitializeProgress(parent: JobId, total: int)
      modifies this`progress
      ensures View() == AfterInitProgress(old(View()), parent, total)
    {
      progress := progress[parent := ProgressOf(View(), parent).(total := total, processed := 0)];
    }
  }
}
