/**
 What every reachable state of the queue satisfies, whatever the interleaving and wherever workers
 crash: each live job can still be reached by a worker, leases and claims agree, dedupe keys point
 to exactly the live jobs, and no user exceeds the cap of active jobs.
 */
module QueueInvariant {
  import opened Options
  import opened JobStore
  import opened JobProtocol

  // ---- the clauses ----

  /** Entries name existing jobs; a job remembers only a delivered entry of its own. */
  ghost predicate EntriesNameJobs(w: World) {
    && (forall e | 0 <= e < |w.store.log| :: w.store.log[e].job < |w.store.jobs|)
    && (forall j | 0 <= j < |w.store.jobs| && w.store.jobs[j].entry.Some? ::
          var e := w.store.jobs[j].entry.value;
          e < |w.store.log| && w.store.log[e].job == j && w.store.log[e].state != Waiting)
    && (forall e | e in w.hands :: e < |w.store.log| && w.store.log[e].state != Waiting)
    && (forall e | e in w.doomed :: e < |w.store.log| && w.store.log[e].state != Waiting)
  }

  /** The lease set holds exactly the running jobs, and exactly those carry a claim token. */
  ghost predicate LeasesMatchClaims(w: World) {
    && (forall j | j in w.store.active :: j < |w.store.jobs|)
    && (forall j | 0 <= j < |w.store.jobs| ::
          && (w.store.jobs[j].status == Running <==> j in w.store.active)
          && (w.store.jobs[j].status == Running <==> w.store.jobs[j].claim.Some?))
  }

  ghost predicate TokensWereIssued(w: World) {
    forall j | 0 <= j < |w.store.jobs| && w.store.jobs[j].claim.Some? :: w.store.jobs[j].claim.value < w.issued
  }

  /** Some entry of the job will still be read, or recovered by XAUTOCLAIM, and nobody is about to acknowledge it. */
  ghost predicate HasEntry(w: World, j: JobId) {
    exists e ::
      0 <= e < |w.store.log| && w.store.log[e].job == j && w.store.log[e].state != Acknowledged && e !in w.doomed
  }

  ghost predicate NoneLost(w: World) {
    forall j | 0 <= j < |w.store.jobs| && w.store.jobs[j].status == Queued :: j in w.store.scheduled || HasEntry(w, j)
  }

  /** A dedupe key is set exactly while a live job owns it, and points to that job. */
  ghost predicate DedupeMatchesLive(s: Store) {
    && (forall k | k in s.dedupe :: s.dedupe[k] < |s.jobs| && Live(s.jobs[s.dedupe[k]]) && s.jobs[s.dedupe[k]].key == k)
    && (forall j | 0 <= j < |s.jobs| && Live(s.jobs[j]) :: s.jobs[j].key in s.dedupe && s.dedupe[s.jobs[j].key] == j)
  }

  /** A live job of a user that is younger than the status TTL. */
  predicate Charged(s: Store, user: UserId, j: JobId) {
    && j < |s.jobs|
    && Live(s.jobs[j])
    && s.jobs[j].owner == Some(user)
    && s.now < s.jobs[j].createdAt + JOB_STATUS_TTL_SECONDS
  }

  /** A slot is a live job of its user, and lapses when the job reaches the status TTL. */
  predicate SlotOwned(jobs: seq<Job>, user: UserId, j: JobId, lapse: Time) {
    && j < |jobs| && Live(jobs[j]) && jobs[j].owner == Some(user)
    && lapse == jobs[j].createdAt + JOB_STATUS_TTL_SECONDS
  }

  ghost predicate SlotsOwned(jobs: seq<Job>, user: UserId, slots: map<JobId, Time>) {
    forall j | j in slots :: SlotOwned(jobs, user, j, slots[j])
  }

  ghost predicate SlotsBounded(c: Settings, s: Store) {
    forall u | u in s.slots :: |s.slots[u]| <= c.maxActiveJobs && SlotsOwned(s.jobs, u, s.slots[u])
  }

  ghost predicate ChargedHaveSlots(s: Store) {
    forall j | 0 <= j < |s.jobs| && s.jobs[j].owner.Some? && Charged(s, s.jobs[j].owner.value, j) ::
      s.jobs[j].owner.value in s.slots && j in s.slots[s.jobs[j].owner.value]
  }

  /** The active set of a user holds live jobs of that user, all of the young ones, and never more than the cap. */
  ghost predicate SlotsCoverCharged(c: Settings, s: Store) {
    SlotsBounded(c, s) && ChargedHaveSlots(s)
  }

  /** The owner of a job is subscribed to it, and nobody twice. */
  ghost predicate SubscribersDistinct(s: Store) {
    forall j | 0 <= j < |s.jobs| ::
      && (s.jobs[j].owner.Some? ==> s.jobs[j].owner.value in s.jobs[j].subscribers)
      && (forall a, b | 0 <= a < b < |s.jobs[j].subscribers| :: s.jobs[j].subscribers[a] != s.jobs[j].subscribers[b])
  }

  ghost predicate RetriesBounded(c: Settings, s: Store) {
    forall j | 0 <= j < |s.jobs| :: s.jobs[j].retries <= c.maxRetries
  }

  ghost predicate Records(c: Settings, w: World) {
    && LeasesMatchClaims(w)
    && TokensWereIssued(w)
    && RetriesBounded(c, w.store)
    && SubscribersDistinct(w.store)
  }

  ghost predicate Inv(c: Settings, w: World) {
    && EntriesNameJobs(w)
    && Records(c, w)
    && DedupeMatchesLive(w.store)
    && SlotsCoverCharged(c, w.store)
    && NoneLost(w)
  }

  // ---- framing ----

  /**
   An action that concerns job `k` alone: others keep their status and their place in the
   scheduled set, entries keep their job, and only entries of `k` are acknowledged or doomed.
   */
  ghost predicate Concerns(w: World, w': World, k: JobId) {
    && |w.store.log| <= |w'.store.log|
    && (forall j | 0 <= j < |w'.store.jobs| && j != k && w'.store.jobs[j].status == Queued ::
          j < |w.store.jobs| && w.store.jobs[j].status == Queued)
    && (forall j | j in w.store.scheduled && j != k :: j in w'.store.scheduled)
    && (forall e | 0 <= e < |w.store.log| :: w'.store.log[e].job == w.store.log[e].job)
    && (forall e | 0 <= e < |w.store.log| && w.store.log[e].job != k && w'.store.log[e].state == Acknowledged ::
          w.store.log[e].state == Acknowledged)
    && (forall e | e in w'.doomed :: e in w.doomed || (e < |w.store.log| && w.store.log[e].job == k))
  }

  lemma NoneLostElsewhere(w: World, w': World, k: JobId)
    requires NoneLost(w) && Concerns(w, w', k)
    requires k < |w'.store.jobs| && w'.store.jobs[k].status == Queued ==> k in w'.store.scheduled || HasEntry(w', k)
    ensures NoneLost(w')
  {
    forall j | 0 <= j < |w'.store.jobs| && w'.store.jobs[j].status == Queued && j !in w'.store.scheduled
      ensures HasEntry(w', j)
    {
      if j != k {
        var e :| 0 <= e < |w.store.log| && w.store.log[e].job == j && w.store.log[e].state != Acknowledged
          && e !in w.doomed;
        assert w'.store.log[e].job == j && w'.store.log[e].state != Acknowledged && e !in w'.doomed;
      }
    }
  }

  /** The action gave job `k` the newest entry of the log. */
  lemma NoneLostNewEntry(w: World, w': World, k: JobId)
    requires EntriesNameJobs(w) && NoneLost(w) && Concerns(w, w', k)
    requires |w'.store.log| == |w.store.log| + 1 && w'.doomed == w.doomed
    requires w'.store.log[|w.store.log|].job == k && w'.store.log[|w.store.log|].state == Waiting
    ensures NoneLost(w')
  {
    assert HasEntry(w', k) by {
      assert w'.store.log[|w.store.log|].job == k && |w.store.log| !in w'.doomed;
    }
    NoneLostElsewhere(w, w', k);
  }

  /** The action moved one entry on, without acknowledging an entry anybody counts on. */
  lemma NoneLostSameJobs(w: World, w': World)
    requires NoneLost(w)
    requires w'.store.jobs == w.store.jobs && w'.store.scheduled == w.store.scheduled
    requires |w'.store.log| == |w.store.log| && w'.doomed <= w.doomed
    requires forall e | 0 <= e < |w.store.log| ::
      && w'.store.log[e].job == w.store.log[e].job
      && (w'.store.log[e].state == Acknowledged ==> w.store.log[e].state == Acknowledged || e in w.doomed)
    ensures NoneLost(w')
  {
    forall j | 0 <= j < |w'.store.jobs| && w'.store.jobs[j].status == Queued && j !in w'.store.scheduled
      ensures HasEntry(w', j)
    {
      var e :| 0 <= e < |w.store.log| && w.store.log[e].job == j && w.store.log[e].state != Acknowledged
        && e !in w.doomed;
      assert w'.store.log[e].job == j && w'.store.log[e].state != Acknowledged && e !in w'.doomed;
    }
  }

  predicate SameKey(job: Job, job': Job) {
    job'.key == job.key && job'.owner == job.owner && job'.createdAt == job.createdAt && (Live(job') <==> Live(job))
  }

  /** Keys, owners, ages and liveness of all jobs are what they were. */
  predicate SameKeys(s: Store, s': Store) {
    && s'.dedupe == s.dedupe && s'.slots == s.slots && s'.now == s.now && |s'.jobs| == |s.jobs|
    && forall i | 0 <= i < |s.jobs| :: SameKey(s.jobs[i], s'.jobs[i])
  }

  lemma SameKeysKeepDedupe(s: Store, s': Store)
    requires SameKeys(s, s') && DedupeMatchesLive(s)
    ensures DedupeMatchesLive(s')
  {
    assert forall i | 0 <= i < |s.jobs| :: SameKey(s.jobs[i], s'.jobs[i]);
  }

  lemma SameKeysKeepSlots(c: Settings, s: Store, s': Store)
    requires SameKeys(s, s') && SlotsCoverCharged(c, s)
    ensures SlotsCoverCharged(c, s')
  {
    forall u | u in s'.slots
      ensures SlotsOwned(s'.jobs, u, s'.slots[u])
    {
      assert SlotsOwned(s.jobs, u, s.slots[u]);
    }
    forall i | 0 <= i < |s'.jobs| && s'.jobs[i].owner.Some? && Charged(s', s'.jobs[i].owner.value, i)
      ensures s'.jobs[i].owner.value in s'.slots && i in s'.slots[s'.jobs[i].owner.value]
    {
      assert SameKey(s.jobs[i], s'.jobs[i]);
    }
  }

  // ---- claim ----

  lemma ClaimEntries(c: Settings, w: World, e: EntryId)
    requires EntriesNameJobs(w) && Enabled(c, w, Claim(e))
    ensures EntriesNameJobs(Next(c, w, Claim(e)))
  {
  }

  lemma ClaimRecords(c: Settings, w: World, e: EntryId)
    requires Records(c, w) && Enabled(c, w, Claim(e))
    ensures Records(c, Next(c, w, Claim(e)))
  {
  }

  lemma ClaimKeys(c: Settings, w: World, e: EntryId)
    requires DedupeMatchesLive(w.store) && SlotsCoverCharged(c, w.store) && Enabled(c, w, Claim(e))
    ensures DedupeMatchesLive(Next(c, w, Claim(e)).store) && SlotsCoverCharged(c, Next(c, w, Claim(e)).store)
  {
    SameKeysKeepDedupe(w.store, Next(c, w, Claim(e)).store);
    SameKeysKeepSlots(c, w.store, Next(c, w, Claim(e)).store);
  }

  lemma ClaimKeeps(c: Settings, w: World, e: EntryId)
    requires Inv(c, w) && Enabled(c, w, Claim(e))
    ensures Inv(c, Next(c, w, Claim(e)))
  {
    ClaimEntries(c, w, e);
    ClaimRecords(c, w, e);
    ClaimKeys(c, w, e);
    ClaimLosesNone(c, w, e);
  }

  lemma ClaimLosesNone(c: Settings, w: World, e: EntryId)
    requires EntriesNameJobs(w) && NoneLost(w) && Enabled(c, w, Claim(e))
    ensures NoneLost(Next(c, w, Claim(e)))
  {
    NoneLostElsewhere(w, Next(c, w, Claim(e)), w.store.log[e].job);
  }

  // ---- finish ----

  lemma FinishEntries(
    c: Settings, w: World, j: JobId, t: Token, status: Status, result: Option<string>, message: Option<string>)
    requires EntriesNameJobs(w)
    ensures EntriesNameJobs(Next(c, w, Finish(j, t, status, result, message)))
  {
  }

  lemma FinishRecords(
    c: Settings, w: World, j: JobId, t: Token, status: Status, result: Option<string>, message: Option<string>)
    requires Records(c, w)
    ensures Records(c, Next(c, w, Finish(j, t, status, result, message)))
  {
  }

  lemma FinishDedupe(s: Store, j: JobId, t: Token, status: Status, result: Option<string>, message: Option<string>)
    requires DedupeMatchesLive(s)
    ensures DedupeMatchesLive(AfterFinish(s, j, t, status, result, message))
  {
  }

  lemma SlotsWithout(jobs: seq<Job>, jobs': seq<Job>, user: UserId, slots: map<JobId, Time>, j: JobId)
    requires SlotsOwned(jobs, user, slots) && j < |jobs| && |jobs'| == |jobs|
    requires forall i | 0 <= i < |jobs| && i != j :: jobs'[i] == jobs[i]
    ensures SlotsOwned(jobs', user, slots - {j}) && |slots - {j}| <= |slots|
    ensures jobs[j].owner != Some(user) ==> slots - {j} == slots
  {
    SubsetSize((slots - {j}).Keys, slots.Keys);
  }

  /** `s'` is `s` after job `j` ended and gave its slot back. */
  ghost predicate Released(s: Store, s': Store, j: JobId) {
    && s'.now == s.now && j < |s.jobs| && |s'.jobs| == |s.jobs|
    && Terminal(s'.jobs[j].status) && s'.slots == SlotsAfter(s.slots, s.jobs[j].owner, j)
    && forall i | 0 <= i < |s.jobs| && i != j :: s'.jobs[i] == s.jobs[i]
  }

  lemma SlotReleased(c: Settings, s: Store, s': Store, j: JobId)
    requires SlotsBounded(c, s) && Released(s, s', j)
    ensures SlotsBounded(c, s')
  {
    forall u | u in s'.slots
      ensures |s'.slots[u]| <= c.maxActiveJobs && SlotsOwned(s'.jobs, u, s'.slots[u])
    {
      SlotsWithout(s.jobs, s'.jobs, u, s.slots[u], j);
    }
  }

  lemma OthersKeepSlots(s: Store, s': Store, j: JobId)
    requires ChargedHaveSlots(s) && Released(s, s', j)
    ensures ChargedHaveSlots(s')
  {
  }

  lemma FinishSlots(
    c: Settings, s: Store, j: JobId, t: Token, status: Status, result: Option<string>, message: Option<string>)
    requires SlotsCoverCharged(c, s)
    ensures SlotsCoverCharged(c, AfterFinish(s, j, t, status, result, message))
  {
    if FinishSucceeds(s, j, t, status) {
      SlotReleased(c, s, AfterFinish(s, j, t, status, result, message), j);
      OthersKeepSlots(s, AfterFinish(s, j, t, status, result, message), j);
    }
  }

  lemma FinishKeeps(
    c: Settings, w: World, j: JobId, t: Token, status: Status, result: Option<string>, message: Option<string>)
    requires Inv(c, w)
    ensures Inv(c, Next(c, w, Finish(j, t, status, result, message)))
  {
    FinishEntries(c, w, j, t, status, result, message);
    FinishRecords(c, w, j, t, status, result, message);
    FinishDedupe(w.store, j, t, status, result, message);
    FinishSlots(c, w.store, j, t, status, result, message);
    FinishLosesNone(c, w, j, t, status, result, message);
  }

  lemma FinishLosesNone(
    c: Settings, w: World, j: JobId, t: Token, status: Status, result: Option<string>, message: Option<string>)
    requires EntriesNameJobs(w) && NoneLost(w)
    ensures NoneLost(Next(c, w, Finish(j, t, status, result, message)))
  {
    NoneLostElsewhere(w, Next(c, w, Finish(j, t, status, result, message)), j);
  }

  // ---- requeue by the holder of the claim: `Retry` and `Cancel` ----

  function Requeued(w: World, j: JobId, message: Option<string>, delay: Time, retries: Option<nat>): World {
    w.(store := AfterRequeue(w.store, j, message, delay, retries))
  }

  lemma RequeueRecords(c: Settings, w: World, j: JobId, message: Option<string>, delay: Time, retries: Option<nat>)
    requires Records(c, w) && (retries.Some? ==> retries.value <= c.maxRetries)
    ensures Records(c, Requeued(w, j, message, delay, retries))
  {
  }

  lemma RequeueKeys(c: Settings, s: Store, j: JobId, message: Option<string>, delay: Time, retries: Option<nat>)
    requires DedupeMatchesLive(s) && SlotsCoverCharged(c, s) && j < |s.jobs| && Live(s.jobs[j])
    ensures DedupeMatchesLive(AfterRequeue(s, j, message, delay, retries))
    ensures SlotsCoverCharged(c, AfterRequeue(s, j, message, delay, retries))
  {
    SameKeysKeepDedupe(s, AfterRequeue(s, j, message, delay, retries));
    SameKeysKeepSlots(c, s, AfterRequeue(s, j, message, delay, retries));
  }

  lemma RequeueEntries(w: World, j: JobId, message: Option<string>, delay: Time, retries: Option<nat>)
    requires EntriesNameJobs(w) && j < |w.store.jobs|
    ensures EntriesNameJobs(Requeued(w, j, message, delay, retries))
  {
    var w' := Requeued(w, j, message, delay, retries);
    assert forall e | 0 <= e < |w.store.log| :: w'.store.log[e].job == w.store.log[e].job;
  }

  lemma DelayedLosesNone(w: World, j: JobId, message: Option<string>, delay: Time, retries: Option<nat>)
    requires EntriesNameJobs(w) && NoneLost(w) && j < |w.store.jobs| && delay > 0.0
    ensures NoneLost(Requeued(w, j, message, delay, retries))
  {
    NoneLostElsewhere(w, Requeued(w, j, message, delay, retries), j);
  }

  lemma GivenBackLosesNone(w: World, j: JobId, message: Option<string>, delay: Time, retries: Option<nat>)
    requires EntriesNameJobs(w) && NoneLost(w) && j < |w.store.jobs| && delay <= 0.0
    ensures NoneLost(Requeued(w, j, message, delay, retries))
  {
    NoneLostNewEntry(w, Requeued(w, j, message, delay, retries), j);
  }

  lemma RequeueLosesNone(w: World, j: JobId, message: Option<string>, delay: Time, retries: Option<nat>)
    requires EntriesNameJobs(w) && NoneLost(w) && j < |w.store.jobs|
    ensures NoneLost(Requeued(w, j, message, delay, retries))
  {
    if delay > 0.0 {
      DelayedLosesNone(w, j, message, delay, retries);
    } else {
      GivenBackLosesNone(w, j, message, delay, retries);
    }
  }

  lemma RequeueKeeps(c: Settings, w: World, j: JobId, message: Option<string>, delay: Time, retries: Option<nat>)
    requires Inv(c, w) && j < |w.store.jobs| && Live(w.store.jobs[j])
    requires retries.Some? ==> retries.value <= c.maxRetries
    ensures Inv(c, Requeued(w, j, message, delay, retries))
  {
    RequeueRecords(c, w, j, message, delay, retries);
    RequeueKeys(c, w.store, j, message, delay, retries);
    RequeueEntries(w, j, message, delay, retries);
    RequeueLosesNone(w, j, message, delay, retries);
  }

  // ---- promotion ----

  lemma PromoteEntries(w: World, j: JobId)
    requires EntriesNameJobs(w) && NoneLost(w)
    ensures EntriesNameJobs(w.(store := AfterPromote(w.store, j))) && NoneLost(w.(store := AfterPromote(w.store, j)))
  {
    if PromoteSucceeds(w.store, j) {
      NoneLostNewEntry(w, w.(store := AfterPromote(w.store, j)), j);
    } else if j in w.store.scheduled {
      NoneLostElsewhere(w, w.(store := AfterPromote(w.store, j)), j);
    }
  }

  lemma PromoteKeeps(c: Settings, w: World, j: JobId)
    requires Inv(c, w)
    ensures Inv(c, Next(c, w, Promote(j)))
  {
    PromoteEntries(w, j);
  }

  lemma FailPromotionKeeps(c: Settings, w: World, j: JobId)
    requires Inv(c, w)
    ensures Inv(c, Next(c, w, FailPromotion(j)))
  {
    if PromoteSucceeds(w.store, j) {
      NoneLostElsewhere(w, Next(c, w, FailPromotion(j)), j);
    }
  }

  // ---- recovery ----

  function Recovered(w: World, j: JobId, claimed: Option<EntryId>): World {
    w.(store := AfterRecover(w.store, j, claimed, RECOVER_MESSAGE))
  }

  /** XAUTOCLAIM hands over delivered entries of the job it recovers. */
  predicate ClaimedEntry(s: Store, j: JobId, claimed: Option<EntryId>) {
    claimed.Some? ==> claimed.value < |s.log| && s.log[claimed.value].job == j && s.log[claimed.value].state == Pending
  }

  lemma ReclaimRecords(c: Settings, w: World, j: JobId, claimed: Option<EntryId>, message: string)
    requires Records(c, w) && j < |w.store.jobs|
    ensures Records(c, w.(store := Reclaim(w.store, j, claimed, message)))
  {
  }

  lemma ReclaimDedupe(s: Store, j: JobId, claimed: Option<EntryId>, message: string)
    requires DedupeMatchesLive(s) && j < |s.jobs| && Live(s.jobs[j])
    ensures DedupeMatchesLive(Reclaim(s, j, claimed, message))
  {
    SameKeysKeepDedupe(s, Reclaim(s, j, claimed, message));
  }

  lemma ReclaimSlots(c: Settings, s: Store, j: JobId, claimed: Option<EntryId>, message: string)
    requires SlotsCoverCharged(c, s) && j < |s.jobs| && Live(s.jobs[j])
    ensures SlotsCoverCharged(c, Reclaim(s, j, claimed, message))
  {
    SameKeysKeepSlots(c, s, Reclaim(s, j, claimed, message));
  }

  lemma ReclaimEntries(w: World, j: JobId, claimed: Option<EntryId>, message: string)
    requires EntriesNameJobs(w) && j < |w.store.jobs| && ClaimedEntry(w.store, j, claimed)
    ensures EntriesNameJobs(w.(store := Reclaim(w.store, j, claimed, message)))
  {
  }

  lemma ReclaimNoneLost(w: World, j: JobId, claimed: Option<EntryId>, message: string)
    requires EntriesNameJobs(w) && NoneLost(w) && j < |w.store.jobs| && ClaimedEntry(w.store, j, claimed)
    ensures NoneLost(w.(store := Reclaim(w.store, j, claimed, message)))
  {
    NoneLostNewEntry(w, w.(store := Reclaim(w.store, j, claimed, message)), j);
  }

  lemma SkippedRecoverKeeps(c: Settings, w: World, j: JobId, claimed: Option<EntryId>)
    requires Inv(c, w) && ClaimedEntry(w.store, j, claimed) && !RecoverSucceeds(w.store, j, claimed)
    ensures Inv(c, Recovered(w, j, claimed))
  {
    if claimed.Some? && Terminal(w.store.jobs[j].status) {
      SettledRecoverKeeps(c, w, j, claimed.value);
    } else {
      assert j !in w.store.active || w.store.jobs[j].status == Running;
      NoneLostSameJobs(w, Recovered(w, j, claimed));
    }
  }

  /** The entry of a job that is settled already is acknowledged. */
  lemma SettledRecoverKeeps(c: Settings, w: World, j: JobId, e: EntryId)
    requires Inv(c, w) && ClaimedEntry(w.store, j, Some(e)) && Terminal(w.store.jobs[j].status)
    ensures Inv(c, Recovered(w, j, Some(e)))
  {
    NoneLostElsewhere(w, Recovered(w, j, Some(e)), j);
  }

  lemma RecoverKeeps(c: Settings, w: World, j: JobId, claimed: Option<EntryId>)
    requires Inv(c, w) && ClaimedEntry(w.store, j, claimed)
    ensures Inv(c, Recovered(w, j, claimed))
  {
    if RecoverSucceeds(w.store, j, claimed) {
      ReclaimRecords(c, w, j, claimed, RECOVER_MESSAGE);
      ReclaimDedupe(w.store, j, claimed, RECOVER_MESSAGE);
      ReclaimSlots(c, w.store, j, claimed, RECOVER_MESSAGE);
      ReclaimEntries(w, j, claimed, RECOVER_MESSAGE);
      ReclaimNoneLost(w, j, claimed, RECOVER_MESSAGE);
    } else {
      SkippedRecoverKeeps(c, w, j, claimed);
    }
  }

  // ---- actions that change no job ----

  lemma DeliverKeeps(c: Settings, w: World, e: EntryId)
    requires Inv(c, w) && Enabled(c, w, Deliver(e))
    ensures Inv(c, Next(c, w, Deliver(e)))
  {
    NoneLostSameJobs(w, Next(c, w, Deliver(e)));
  }

  lemma AckKeeps(c: Settings, w: World, e: EntryId)
    requires Inv(c, w) && Enabled(c, w, AckFailedClaim(e))
    ensures Inv(c, Next(c, w, AckFailedClaim(e)))
  {
    NoneLostSameJobs(w, Next(c, w, AckFailedClaim(e)));
  }

  lemma CrashKeeps(c: Settings, w: World, e: EntryId)
    requires Inv(c, w)
    ensures Inv(c, Next(c, w, Crash(e)))
  {
    NoneLostSameJobs(w, Next(c, w, Crash(e)));
  }

  lemma HeartbeatKeeps(c: Settings, w: World, j: JobId, t: Token)
    requires Inv(c, w)
    ensures Inv(c, Next(c, w, Heartbeat(j, t)))
  {
    NoneLostSameJobs(w, Next(c, w, Heartbeat(j, t)));
  }

  lemma TickKeeps(c: Settings, w: World, d: Time)
    requires Inv(c, w) && Enabled(c, w, Tick(d))
    ensures Inv(c, Next(c, w, Tick(d)))
  {
    NoneLostSameJobs(w, Next(c, w, Tick(d)));
  }

  // ---- enqueue ----

  lemma LiveSlotsShrink(slots: map<JobId, Time>, now: Time)
    ensures |LiveSlots(slots, now)| <= |slots|
  {
    SubsetSize(LiveSlots(slots, now).Keys, slots.Keys);
  }

  lemma {:induction false} SubsetSize<T>(a: set<T>, b: set<T>)
    requires a <= b
    ensures |a| <= |b|
  {
    if a != {} {
      var x :| x in a;
      SubsetSize(a - {x}, b - {x});
    }
  }

  lemma PurgeSlotsCover(c: Settings, s: Store, r: Request)
    requires SlotsCoverCharged(c, s)
    ensures SlotsCoverCharged(c, PurgeSlots(s, r))
  {
    PurgeSlotsBounded(c, s, r);
    PurgeChargesSlots(s, r);
  }

  lemma PurgeSlotsBounded(c: Settings, s: Store, r: Request)
    requires SlotsBounded(c, s)
    ensures SlotsBounded(c, PurgeSlots(s, r))
  {
    var s' := PurgeSlots(s, r);
    forall u | u in s'.slots
      ensures |s'.slots[u]| <= c.maxActiveJobs && SlotsOwned(s'.jobs, u, s'.slots[u])
    {
      LiveSlotsShrink(SlotsOf(s, u), s.now);
    }
  }

  lemma PurgeChargesSlots(s: Store, r: Request)
    requires ChargedHaveSlots(s) && forall u | u in s.slots :: SlotsOwned(s.jobs, u, s.slots[u])
    ensures ChargedHaveSlots(PurgeSlots(s, r))
  {
    var s' := PurgeSlots(s, r);
    forall j | 0 <= j < |s'.jobs| && s'.jobs[j].owner.Some? && Charged(s', s'.jobs[j].owner.value, j)
      ensures s'.jobs[j].owner.value in s'.slots && j in s'.slots[s'.jobs[j].owner.value]
    {
      var u := s.jobs[j].owner.value;
      assert Charged(s, u, j) && SlotOwned(s.jobs, u, j, s.slots[u][j]);
    }
  }

  lemma SlotsOfMoreJobs(jobs: seq<Job>, job: Job, user: UserId, slots: map<JobId, Time>)
    requires SlotsOwned(jobs, user, slots)
    ensures SlotsOwned(jobs + [job], user, slots)
    ensures Live(job) && job.owner == Some(user) ==>
              SlotsOwned(jobs + [job], user, slots[|jobs| := job.createdAt + JOB_STATUS_TTL_SECONDS])
  {
  }

  lemma InsertSlotsBounded(c: Settings, s: Store, r: Request)
    requires SlotsBounded(c, s)
    requires Requester(r).Some? ==> |SlotsOf(s, Requester(r).value)| < c.maxActiveJobs
    ensures SlotsBounded(c, InsertJob(s, r))
  {
    var s' := InsertJob(s, r);
    forall u | u in s'.slots
      ensures |s'.slots[u]| <= c.maxActiveJobs && SlotsOwned(s'.jobs, u, s'.slots[u])
    {
      SlotsOfMoreJobs(s.jobs, NewJob(r, s.now), u, SlotsOf(s, u));
    }
  }

  lemma InsertSlots(c: Settings, s: Store, r: Request)
    requires SlotsCoverCharged(c, s)
    requires Requester(r).Some? ==> |SlotsOf(s, Requester(r).value)| < c.maxActiveJobs
    ensures SlotsCoverCharged(c, InsertJob(s, r))
  {
    InsertSlotsBounded(c, s, r);
    InsertChargesSlots(s, r);
  }

  lemma InsertChargesSlots(s: Store, r: Request)
    requires ChargedHaveSlots(s)
    ensures ChargedHaveSlots(InsertJob(s, r))
  {
    var s' := InsertJob(s, r);
    forall j | 0 <= j < |s'.jobs| && s'.jobs[j].owner.Some? && Charged(s', s'.jobs[j].owner.value, j)
      ensures s'.jobs[j].owner.value in s'.slots && j in s'.slots[s'.jobs[j].owner.value]
    {
      if j < |s.jobs| {
        assert Charged(s, s.jobs[j].owner.value, j);
      }
    }
  }

  lemma InsertDedupe(s: Store, r: Request)
    requires DedupeMatchesLive(s) && r.key !in s.dedupe
    ensures DedupeMatchesLive(InsertJob(s, r))
  {
  }

  lemma InsertRecords(c: Settings, w: World, r: Request)
    requires EntriesNameJobs(w) && Records(c, w) && NoneLost(w)
    ensures EntriesNameJobs(w.(store := InsertJob(w.store, r)))
    ensures Records(c, w.(store := InsertJob(w.store, r)))
    ensures NoneLost(w.(store := InsertJob(w.store, r)))
  {
    NoneLostNewEntry(w, w.(store := InsertJob(w.store, r)), |w.store.jobs|);
  }

  lemma SubscribeRecords(c: Settings, w: World, r: Request)
    requires EntriesNameJobs(w) && Records(c, w) && Duplicates(w.store, r)
    ensures EntriesNameJobs(w.(store := AfterEnqueue(w.store, c.maxActiveJobs, r)))
    ensures Records(c, w.(store := AfterEnqueue(w.store, c.maxActiveJobs, r)))
  {
  }

  lemma SubscribeKeys(c: Settings, s: Store, r: Request)
    requires DedupeMatchesLive(s) && SlotsCoverCharged(c, s) && Duplicates(s, r)
    ensures DedupeMatchesLive(AfterEnqueue(s, c.maxActiveJobs, r))
              && SlotsCoverCharged(c, AfterEnqueue(s, c.maxActiveJobs, r))
  {
    SameKeysKeepDedupe(s, AfterEnqueue(s, c.maxActiveJobs, r));
    SameKeysKeepSlots(c, s, AfterEnqueue(s, c.maxActiveJobs, r));
  }

  lemma SubscribeKeeps(c: Settings, w: World, r: Request)
    requires Inv(c, w) && Duplicates(w.store, r)
    ensures Inv(c, w.(store := AfterEnqueue(w.store, c.maxActiveJobs, r)))
  {
    SubscribeRecords(c, w, r);
    SubscribeKeys(c, w.store, r);
    NoneLostElsewhere(w, w.(store := AfterEnqueue(w.store, c.maxActiveJobs, r)), w.store.dedupe[r.key]);
  }

  lemma PurgeKeeps(c: Settings, w: World, r: Request)
    requires Inv(c, w)
    ensures Inv(c, w.(store := PurgeSlots(w.store, r)))
  {
    PurgeSlotsCover(c, w.store, r);
    NoneLostSameJobs(w, w.(store := PurgeSlots(w.store, r)));
  }

  lemma EnqueueKeeps(c: Settings, w: World, r: Request)
    requires Inv(c, w)
    ensures Inv(c, w.(store := AfterEnqueue(w.store, c.maxActiveJobs, r)))
  {
    if Duplicates(w.store, r) {
      SubscribeKeeps(c, w, r);
    } else {
      assert r.key !in w.store.dedupe;
      assert w.store.dedupe - {r.key} == w.store.dedupe;
      PurgeKeeps(c, w, r);
      if !OverCap(w.store, c.maxActiveJobs, r) {
        var purged := w.(store := PurgeSlots(w.store, r));
        InsertSlots(c, purged.store, r);
        InsertDedupe(purged.store, r);
        InsertRecords(c, purged, r);
      }
    }
  }

  // ---- every action, every run ----

  lemma SessionsDoNotMatter(c: Settings, w: World, w': World)
    requires Inv(c, w)
    requires w'.store == w.store && w'.hands == w.hands && w'.doomed == w.doomed && w'.issued == w.issued
    ensures Inv(c, w')
  {
    NoneLostSameJobs(w, w');
  }

  lemma RetryIsRequeue(c: Settings, w: World, j: JobId, t: Token, retryAfter: Time)
    returns (delay: Time, retries: nat)
    requires Enabled(c, w, Retry(j, t, retryAfter))
    ensures Next(c, w, Retry(j, t, retryAfter)) == Requeued(w, j, Some(RETRY_MESSAGE), delay, Some(retries))
    ensures retries <= c.maxRetries && j < |w.store.jobs| && Live(w.store.jobs[j])
  {
    retries := w.store.jobs[j].retries + 1;
    delay := RetryDelay(retryAfter, retries - 1);
  }

  lemma RequeuedKeeps(
    c: Settings, w: World, w': World, j: JobId, message: Option<string>, delay: Time, retries: Option<nat>)
    requires Inv(c, w) && j < |w.store.jobs| && Live(w.store.jobs[j])
    requires (retries.Some? ==> retries.value <= c.maxRetries) && w' == Requeued(w, j, message, delay, retries)
    ensures Inv(c, w')
  {
    RequeueKeeps(c, w, j, message, delay, retries);
  }

  lemma RetryKeeps(c: Settings, w: World, j: JobId, t: Token, retryAfter: Time)
    requires Inv(c, w) && Enabled(c, w, Retry(j, t, retryAfter))
    ensures Inv(c, Next(c, w, Retry(j, t, retryAfter)))
  {
    var delay, retries := RetryIsRequeue(c, w, j, t, retryAfter);
    RequeuedKeeps(
      c, w, Next(c, w, Retry(j, t, retryAfter)), j, Some(RETRY_MESSAGE), delay, Some(retries));
  }

  lemma CancelKeeps(c: Settings, w: World, j: JobId, t: Token)
    requires Inv(c, w) && Enabled(c, w, Cancel(j, t))
    ensures Inv(c, Next(c, w, Cancel(j, t)))
  {
    RequeueKeeps(c, w, j, Some(CANCEL_MESSAGE), 0.0, None);
  }

  lemma BeginRefreshKeeps(c: Settings, w: World, p: JobId, groups: seq<Group>)
    requires Inv(c, w) && Enabled(c, w, BeginRefresh(p, groups))
    ensures Inv(c, Next(c, w, BeginRefresh(p, groups)))
  {
    NoneLostSameJobs(w, Next(c, w, BeginRefresh(p, groups)));
  }

  lemma EnqueueChildKeeps(c: Settings, w: World, p: JobId)
    requires Inv(c, w) && Enabled(c, w, EnqueueChild(p))
    ensures Inv(c, Next(c, w, EnqueueChild(p)))
  {
    var r := ChildRequest(p, w.sessions[p].groups[w.sessions[p].queued]);
    EnqueueKeeps(c, w, r);
    SessionsDoNotMatter(c, w.(store := AfterEnqueue(w.store, c.maxActiveJobs, r)), Next(c, w, EnqueueChild(p)));
  }

  lemma StepKeeps(c: Settings, w: World, a: Action)
    requires Inv(c, w) && Enabled(c, w, a)
    ensures Inv(c, Next(c, w, a))
  {
    match a
    case Enqueue(r) => EnqueueKeeps(c, w, r);
    case Deliver(e) => DeliverKeeps(c, w, e);
    case Claim(e) => ClaimKeeps(c, w, e);
    case AckFailedClaim(e) => AckKeeps(c, w, e);
    case Crash(e) => CrashKeeps(c, w, e);
    case Heartbeat(j, t) => HeartbeatKeeps(c, w, j, t);
    case Finish(j, t, status, result, message) => FinishKeeps(c, w, j, t, status, result, message);
    case Retry(j, t, retryAfter) => RetryKeeps(c, w, j, t, retryAfter);
    case Cancel(j, t) => CancelKeeps(c, w, j, t);
    case Promote(j) => PromoteKeeps(c, w, j);
    case FailPromotion(j) => FailPromotionKeeps(c, w, j);
    case RecoverEntry(e) => RecoverKeeps(c, w, w.store.log[e].job, Some(e));
    case RecoverExpired(j) => RecoverKeeps(c, w, j, None);
    case Tick(d) => TickKeeps(c, w, d);
    case BeginRefresh(p, groups) => BeginRefreshKeeps(c, w, p, groups);
    case EnqueueChild(p) => EnqueueChildKeeps(c, w, p);
    case PollProgress(p) => SessionsDoNotMatter(c, w, Next(c, w, a));
  }

  lemma {:induction false} RunKeeps(c: Settings, w: World, actions: seq<Action>)
    requires Inv(c, w) && ValidRun(c, w, actions)
    ensures Inv(c, Run(c, w, actions))
    decreases |actions|
  {
    if actions != [] {
      StepKeeps(c, w, actions[0]);
      RunKeeps(c, Next(c, w, actions[0]), actions[1..]);
    }
  }
}
