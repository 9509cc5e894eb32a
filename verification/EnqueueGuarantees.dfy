/**
 What an enqueue does, in terms of the request: who is charged and subscribed, which stream the job waits in, and what
 the cap counts. Over runs, every job is traced back to the request that created it.
 */
module EnqueueGuarantees {
  import opened Options
  import opened JobStore
  import opened JobProtocol
  import opened QueueInvariant
  import opened QueueGuarantees

  // ---- one enqueue ----

  /** Lookups and single refreshes of a user count against that user. */
  predicate ChargedTo(r: Request, user: UserId) {
    (r.kind == Lookup || r.kind == RefreshOne) && r.user == Some(user)
  }

  /** The stream of a kind of work. */
  predicate StreamOf(kind: Kind, queue: Queue) {
    && (queue == ManualHigh <==> kind == Lookup)
    && (queue == ManualNormal <==> kind == RefreshOne)
    && (queue == FullRefreshLow <==> kind == RefreshAll || kind == RefreshAllItem)
  }

  /** The record a request gets: queued, unclaimed, and charged to its user or to nobody. */
  ghost predicate Fresh(job: Job, r: Request, at: Time) {
    && job.kind == r.kind && job.key == r.key && job.parent == r.parent && job.progressWeight == r.progressWeight
    && job.status == Queued && job.claim == None && job.entry == None && job.retries == 0
    && job.result == None && job.message == None && job.createdAt == at && job.updatedAt == at
    && StreamOf(job.kind, job.queue)
    && (forall u: UserId :: job.owner == Some(u) <==> ChargedTo(r, u))
    && (forall u: UserId :: u in job.subscribers <==> ChargedTo(r, u))
    && |job.subscribers| <= 1
  }

  /** The live slots of a user: jobs whose day is not over. */
  function HeldSlots(s: Store, user: UserId): set<JobId> {
    if user in s.slots then set j | j in s.slots[user] && s.now < s.slots[user][j] else {}
  }

  ghost predicate Effect(s: Store, s': Store, r: Request, outcome: Enqueued) {
    match outcome
    case Existing(j) => r.key in s.dedupe && j == s.dedupe[r.key] && JoinsJob(s, s', r, j)
    case Refused => OnlyLapsedGo(s, s', r)
    case Created(j) => j == |s.jobs| && AddsJob(s, s', r)
  }

  /**
   A request under the key of a stored job subscribes its user there and changes nothing else; one whose user is at
   the cap is refused; any other creates a job with one entry in the stream of its kind, and a slot for a day.
   */
  lemma EnqueueDoes(c: Settings, w: World, r: Request)
    requires Reachable(c, w)
    ensures var s, outcome := w.store, EnqueueOutcome(w.store, c.maxActiveJobs, r);
            var s' := AfterEnqueue(s, c.maxActiveJobs, r);
            && (outcome.Existing? <==> r.key in s.dedupe)
            && (outcome.Refused? <==> r.key !in s.dedupe && AtCap(s, c.maxActiveJobs, r))
            && Effect(s, s', r, outcome)
  {
    ReachableInv(c, w);
    EnqueueDoesTo(w.store, c.maxActiveJobs, r);
  }

  lemma EnqueueDoesTo(s: Store, cap: nat, r: Request)
    requires DedupeMatchesLive(s)
    ensures var outcome, s' := EnqueueOutcome(s, cap, r), AfterEnqueue(s, cap, r);
            && (outcome.Existing? <==> r.key in s.dedupe)
            && (outcome.Refused? <==> r.key !in s.dedupe && AtCap(s, cap, r))
            && Effect(s, s', r, outcome)
  {
    AtCapIsOverCap(s, cap, r);
    if r.key in s.dedupe {
      DuplicateJoins(s, cap, r);
    } else if OverCap(s, cap, r) {
      RefusalPurges(s, cap, r);
    } else {
      InsertionAddsJob(s, cap, r);
    }
  }

  /** As many slots of the user are held as the cap allows. */
  ghost predicate AtCap(s: Store, cap: nat, r: Request) {
    exists u :: ChargedTo(r, u) && |HeldSlots(s, u)| >= cap
  }

  lemma AtCapIsOverCap(s: Store, cap: nat, r: Request)
    ensures AtCap(s, cap, r) <==> OverCap(s, cap, r)
  {
    SlotsAreHeld(s, r);
    if OverCap(s, cap, r) {
      assert ChargedTo(r, r.user.value);
    }
  }

  lemma DuplicateJoins(s: Store, cap: nat, r: Request)
    requires Duplicates(s, r)
    ensures JoinsJob(s, AfterEnqueue(s, cap, r), r, s.dedupe[r.key])
  {
  }

  lemma RefusalPurges(s: Store, cap: nat, r: Request)
    requires r.key !in s.dedupe && OverCap(s, cap, r)
    ensures OnlyLapsedGo(s, AfterEnqueue(s, cap, r), r)
  {
    assert s.dedupe - {r.key} == s.dedupe;
    PurgeDropsLapsed(s, r, r.user.value);
  }

  lemma PurgeDropsLapsed(s: Store, r: Request, u: UserId)
    requires ChargedTo(r, u)
    ensures OnlyLapsedGo(s, PurgeSlots(s, r), r)
  {
    var s' := PurgeSlots(s, r);
    assert s'.slots == s.slots[u := LiveSlots(SlotsOf(s, u), s.now)];
    assert HeldSlots(s', u) == HeldSlots(s, u);
  }

  lemma SlotsAreHeld(s: Store, r: Request)
    ensures forall u | ChargedTo(r, u) :: |LiveSlots(SlotsOf(s, u), s.now)| == |HeldSlots(s, u)|
  {
    forall u | ChargedTo(r, u)
      ensures |LiveSlots(SlotsOf(s, u), s.now)| == |HeldSlots(s, u)|
    {
      assert LiveSlots(SlotsOf(s, u), s.now).Keys == HeldSlots(s, u);
    }
  }

  /** The job of the key gets the user as a subscriber, once. */
  ghost predicate JoinsJob(s: Store, s': Store, r: Request, j: JobId) {
    && j < |s.jobs| && |s'.jobs| == |s.jobs| && s' == s.(jobs := s'.jobs)
    && (forall i | 0 <= i < |s.jobs| && i != j :: s'.jobs[i] == s.jobs[i])
    && s'.jobs[j] == s.jobs[j].(subscribers := s'.jobs[j].subscribers)
    && s.jobs[j].subscribers <= s'.jobs[j].subscribers
    && (forall u | ChargedTo(r, u) :: u in s'.jobs[j].subscribers)
    && (forall u | u in s'.jobs[j].subscribers :: u in s.jobs[j].subscribers || ChargedTo(r, u))
  }

  /** Of the slots of the user only those go whose day is over; those of others stay. */
  ghost predicate OnlyLapsedGo(s: Store, s': Store, r: Request) {
    && s' == s.(slots := s'.slots)
    && (forall u | u in s.slots && !ChargedTo(r, u) :: u in s'.slots && s'.slots[u] == s.slots[u])
    && (forall u | u in s'.slots && !ChargedTo(r, u) :: u in s.slots)
    && (forall u | ChargedTo(r, u) :: HeldSlots(s', u) == HeldSlots(s, u))
  }

  /** One new job, its entry at the end of the log, its key, and the slot of its user for the next 24 hours. */
  ghost predicate AddsJob(s: Store, s': Store, r: Request) {
    && s' == s.(jobs := s'.jobs, log := s'.log, dedupe := s'.dedupe, slots := s'.slots)
    && AddsRecord(s, s', r)
    && TakesSlot(s, s', r)
  }

  ghost predicate AddsRecord(s: Store, s': Store, r: Request) {
    var j, e := |s.jobs|, |s.log|;
    && |s'.jobs| == j + 1 && s'.jobs[..j] == s.jobs && Fresh(s'.jobs[j], r, s.now)
    && |s'.log| == e + 1 && s'.log[..e] == s.log
    && s'.log[e].job == j && s'.log[e].state == Waiting && StreamOf(r.kind, s'.log[e].queue)
    && s'.dedupe == s.dedupe[r.key := j]
  }

  ghost predicate TakesSlot(s: Store, s': Store, r: Request) {
    var j := |s.jobs|;
    && (forall u | ChargedTo(r, u) ::
          && u in s'.slots && j in s'.slots[u] && s'.slots[u][j] == s.now + 86400.0
          && HeldSlots(s', u) == HeldSlots(s, u) + {j})
    && (forall u | !ChargedTo(r, u) :: HeldSlots(s', u) == HeldSlots(s, u))
  }

  lemma InsertionAddsJob(s: Store, cap: nat, r: Request)
    requires r.key !in s.dedupe && !OverCap(s, cap, r)
    ensures AddsJob(s, AfterEnqueue(s, cap, r), r)
  {
    assert s.dedupe - {r.key} == s.dedupe;
    InsertionAddsRecord(PurgeSlots(s, r), r);
    InsertionTakesSlot(s, r);
  }

  lemma InsertionAddsRecord(s: Store, r: Request)
    ensures AddsRecord(s, InsertJob(s, r), r)
  {
  }

  lemma InsertionTakesSlot(s: Store, r: Request)
    ensures TakesSlot(s, InsertJob(PurgeSlots(s, r), r), r)
  {
    var s' := InsertJob(PurgeSlots(s, r), r);
    forall u | ChargedTo(r, u)
      ensures u in s'.slots && |s.jobs| in s'.slots[u] && s'.slots[u][|s.jobs|] == s.now + 86400.0
              && HeldSlots(s', u) == HeldSlots(s, u) + {|s.jobs|}
    {
      SlotIsTaken(s, s', u);
    }
  }

  lemma SlotIsTaken(s: Store, s': Store, u: UserId)
    requires s'.now == s.now
    requires u in s'.slots
    requires s'.slots[u] == LiveSlots(SlotsOf(s, u), s.now)[|s.jobs| := s.now + JOB_STATUS_TTL_SECONDS]
    ensures |s.jobs| in s'.slots[u] && s'.slots[u][|s.jobs|] == s.now + 86400.0
    ensures HeldSlots(s', u) == HeldSlots(s, u) + {|s.jobs|}
  {
    var slots := LiveSlots(SlotsOf(s, u), s.now)[|s.jobs| := s.now + JOB_STATUS_TTL_SECONDS];
    forall j: JobId
      ensures j in HeldSlots(s', u) <==> j in HeldSlots(s, u) + {|s.jobs|}
    {
      assert j in HeldSlots(s', u) <==> j in slots && s.now < slots[j];
    }
  }

  // ---- over runs: where jobs come from ----

  /** The request that created a job, and when. */
  datatype Birth = Birth(request: Request, at: Time)

  /** What a parent asks for: an item of its refresh, for nobody. */
  predicate ItemRequest(r: Request, parent: JobId, group: Group) {
    && r.kind == RefreshAllItem && r.user == None && r.key == RefreshItem(parent, group.inn)
    && r.parent == Some(parent) && r.progressWeight == group.size
  }

  /** The request an action brings, if it is one that enqueues. */
  function Brought(c: Settings, w: World, a: Action): (r: Option<Request>)
    requires Enabled(c, w, a)
    ensures a.Enqueue? ==> r == Some(a.request)
    ensures a.EnqueueChild? ==>
              r.Some? && ItemRequest(r.value, a.parent, w.sessions[a.parent].groups[w.sessions[a.parent].queued])
    ensures r.Some? ==> a.Enqueue? || a.EnqueueChild?
  {
    match a
    case Enqueue(r) => Some(r)
    case EnqueueChild(p) =>
      var group := w.sessions[p].groups[w.sessions[p].queued];
      Some(Request(RefreshAllItem, None, RefreshItem(p, group.inn), Some(p), group.size))
    case _ => None
  }

  /** An action creates a job if it brings a request and there is one job more afterwards. */
  function BornBy(c: Settings, w: World, a: Action): seq<Birth>
    requires Enabled(c, w, a)
  {
    match Brought(c, w, a)
    case Some(r) => if |Next(c, w, a).store.jobs| > |w.store.jobs| then [Birth(r, w.store.now)] else []
    case None => []
  }

  function Births(c: Settings, w: World, actions: seq<Action>): seq<Birth>
    requires ValidRun(c, w, actions)
    decreases |actions|
  {
    if actions == [] then [] else BornBy(c, w, actions[0]) + Births(c, Next(c, w, actions[0]), actions[1..])
  }

  /** The record says what the request said, and names the user it counts against, or nobody. */
  ghost predicate ComesFrom(job: Job, born: Birth) {
    && job.kind == born.request.kind && job.key == born.request.key
    && job.parent == born.request.parent && job.progressWeight == born.request.progressWeight
    && job.createdAt == born.at && StreamOf(job.kind, job.queue)
    && (forall u: UserId :: job.owner == Some(u) <==> ChargedTo(born.request, u))
  }

  ghost predicate AllComeFrom(jobs: seq<Job>, born: seq<Birth>) {
    |jobs| == |born| && forall j | 0 <= j < |jobs| :: ComesFrom(jobs[j], born[j])
  }

  /** Every entry of the log lies in the stream of the kind of its job. */
  ghost predicate EntriesLieInStreams(s: Store) {
    forall e | 0 <= e < |s.log| :: s.log[e].job < |s.jobs| && StreamOf(s.jobs[s.log[e].job].kind, s.log[e].queue)
  }

  /** What a job is never loses: its origin, and those who asked for it. */
  predicate SameOrigin(job: Job, job': Job) {
    && job'.kind == job.kind && job'.key == job.key && job'.parent == job.parent
    && job'.progressWeight == job.progressWeight && job'.createdAt == job.createdAt
    && job'.queue == job.queue && job'.owner == job.owner
  }

  /** The jobs are the same ones, with the same subscribers, and new entries are in the streams of their jobs. */
  ghost predicate OriginsKept(s: Store, s': Store) {
    && |s'.jobs| == |s.jobs|
    && (forall j | 0 <= j < |s.jobs| ::
          SameOrigin(s.jobs[j], s'.jobs[j]) && s'.jobs[j].subscribers == s.jobs[j].subscribers)
    && |s.log| <= |s'.log|
    && (forall e | 0 <= e < |s.log| :: s'.log[e].job == s.log[e].job && s'.log[e].queue == s.log[e].queue)
    && (forall e | |s.log| <= e < |s'.log| ::
          s'.log[e].job < |s.jobs| && s'.log[e].queue == s.jobs[s'.log[e].job].queue)
  }

  lemma ReclaimKeepsOrigins(s: Store, j: JobId, claimed: Option<EntryId>, message: string)
    requires j < |s.jobs|
    ensures OriginsKept(s, Reclaim(s, j, claimed, message))
  {
  }

  lemma RecoverKeepsOrigins(s: Store, j: JobId, claimed: Option<EntryId>, message: string)
    ensures OriginsKept(s, AfterRecover(s, j, claimed, message))
  {
    if RecoverSucceeds(s, j, claimed) {
      ReclaimKeepsOrigins(s, j, claimed, message);
    }
  }

  lemma RequeueKeepsOrigins(s: Store, j: JobId, message: Option<string>, delay: Time, retries: Option<nat>)
    ensures OriginsKept(s, AfterRequeue(s, j, message, delay, retries))
  {
  }

  lemma OthersKeepOrigins(c: Settings, w: World, a: Action)
    requires Enabled(c, w, a) && !a.Enqueue? && !a.EnqueueChild?
    ensures OriginsKept(w.store, NextStore(c, w, a))
  {
    match a
    case RecoverEntry(e) => RecoverKeepsOrigins(w.store, w.store.log[e].job, Some(e), RECOVER_MESSAGE);
    case RecoverExpired(j) => RecoverKeepsOrigins(w.store, j, None, RECOVER_MESSAGE);
    case Retry(j, t, after) =>
      var retries := w.store.jobs[j].retries;
      RequeueKeepsOrigins(w.store, j, Some(RETRY_MESSAGE), RetryDelay(after, retries), Some(retries + 1));
    case Cancel(j, _) => RequeueKeepsOrigins(w.store, j, Some(CANCEL_MESSAGE), 0.0, None);
    case _ =>
  }

  /** How a request changes the records: it joins a job, or changes none, or adds one. */
  lemma BroughtRequestDoes(c: Settings, w: World, a: Action, r: Request)
    requires Enabled(c, w, a) && Inv(c, w) && Brought(c, w, a) == Some(r)
    ensures NextStore(c, w, a) == AfterEnqueue(w.store, c.maxActiveJobs, r)
    ensures var s, s' := w.store, NextStore(c, w, a);
            Effect(s, s', r, EnqueueOutcome(s, c.maxActiveJobs, r))
  {
    EnqueueDoesTo(w.store, c.maxActiveJobs, r);
  }

  lemma StepRecords(c: Settings, w: World, a: Action, born: seq<Birth>)
    requires Enabled(c, w, a) && Inv(c, w) && AllComeFrom(w.store.jobs, born) && EntriesLieInStreams(w.store)
    ensures AllComeFrom(Next(c, w, a).store.jobs, born + BornBy(c, w, a)) && EntriesLieInStreams(Next(c, w, a).store)
  {
    var s, s' := w.store, NextStore(c, w, a);
    match Brought(c, w, a)
    case None =>
      OthersKeepOrigins(c, w, a);
      KeptRecords(s, s', born);
      assert born + [] == born;
    case Some(r) =>
      BroughtRequestDoes(c, w, a, r);
      EnqueuedRecords(s, s', r, EnqueueOutcome(s, c.maxActiveJobs, r), born);
  }

  lemma EnqueuedRecords(s: Store, s': Store, r: Request, outcome: Enqueued, born: seq<Birth>)
    requires AllComeFrom(s.jobs, born) && EntriesLieInStreams(s) && Effect(s, s', r, outcome)
    ensures AllComeFrom(s'.jobs, born + if |s'.jobs| > |s.jobs| then [Birth(r, s.now)] else [])
    ensures EntriesLieInStreams(s')
  {
    match outcome {
      case Existing(j) =>
        JoinedRecords(s, s', r, j, born);
        assert born + [] == born;
      case Refused =>
        assert born + [] == born;
      case Created(j) => AddedRecords(s, s', r, born);
    }
  }

  lemma KeptRecords(s: Store, s': Store, born: seq<Birth>)
    requires OriginsKept(s, s') && AllComeFrom(s.jobs, born) && EntriesLieInStreams(s)
    ensures AllComeFrom(s'.jobs, born) && EntriesLieInStreams(s')
  {
    forall j | 0 <= j < |s'.jobs|
      ensures ComesFrom(s'.jobs[j], born[j])
    {
      assert ComesFrom(s.jobs[j], born[j]) && SameOrigin(s.jobs[j], s'.jobs[j]);
    }
    forall e | 0 <= e < |s'.log|
      ensures s'.log[e].job < |s'.jobs| && StreamOf(s'.jobs[s'.log[e].job].kind, s'.log[e].queue)
    {
      var j := s'.log[e].job;
      assert ComesFrom(s.jobs[j], born[j]) && SameOrigin(s.jobs[j], s'.jobs[j]);
    }
  }

  lemma JoinedRecords(s: Store, s': Store, r: Request, j: JobId, born: seq<Birth>)
    requires JoinsJob(s, s', r, j) && AllComeFrom(s.jobs, born) && EntriesLieInStreams(s)
    ensures AllComeFrom(s'.jobs, born) && EntriesLieInStreams(s') && |s'.jobs| == |s.jobs|
  {
    forall i | 0 <= i < |s'.jobs|
      ensures ComesFrom(s'.jobs[i], born[i]) && s'.jobs[i].kind == s.jobs[i].kind
    {
      assert ComesFrom(s.jobs[i], born[i]);
    }
  }

  lemma AddedRecords(s: Store, s': Store, r: Request, born: seq<Birth>)
    requires AddsJob(s, s', r) && AllComeFrom(s.jobs, born) && EntriesLieInStreams(s)
    ensures AllComeFrom(s'.jobs, born + [Birth(r, s.now)]) && EntriesLieInStreams(s')
  {
    forall j | 0 <= j < |s'.jobs|
      ensures ComesFrom(s'.jobs[j], (born + [Birth(r, s.now)])[j])
    {
      if j < |s.jobs| {
        assert s'.jobs[j] == s'.jobs[..|s.jobs|][j] == s.jobs[j] && ComesFrom(s.jobs[j], born[j]);
      }
    }
    forall e | 0 <= e < |s'.log|
      ensures s'.log[e].job < |s'.jobs| && StreamOf(s'.jobs[s'.log[e].job].kind, s'.log[e].queue)
    {
      if e < |s.log| {
        assert s'.log[e] == s'.log[..|s.log|][e] == s.log[e];
        assert s'.jobs[s.log[e].job] == s'.jobs[..|s.jobs|][s.log[e].job];
      }
    }
  }

  ghost predicate Traced(c: Settings, w: World, born: seq<Birth>) {
    Inv(c, w) && AllComeFrom(w.store.jobs, born) && EntriesLieInStreams(w.store)
  }

  lemma StepTraces(c: Settings, w: World, a: Action, born: seq<Birth>)
    requires Enabled(c, w, a) && Traced(c, w, born)
    ensures Traced(c, Next(c, w, a), born + BornBy(c, w, a))
  {
    StepRecords(c, w, a, born);
    StepKeeps(c, w, a);
  }

  lemma BirthsOfFirst(c: Settings, w: World, actions: seq<Action>, born: seq<Birth>)
    requires actions != [] && ValidRun(c, w, actions)
    ensures born + Births(c, w, actions)
            == born + BornBy(c, w, actions[0]) + Births(c, Next(c, w, actions[0]), actions[1..])
  {
    Assembled(born, BornBy(c, w, actions[0]), Births(c, Next(c, w, actions[0]), actions[1..]));
  }

  lemma Assembled(a: seq<Birth>, b: seq<Birth>, c: seq<Birth>)
    ensures a + (b + c) == a + b + c
  {
  }

  lemma {:induction false} RunTraces(c: Settings, w: World, actions: seq<Action>, born: seq<Birth>)
    requires ValidRun(c, w, actions) && Traced(c, w, born)
    ensures Traced(c, Run(c, w, actions), born + Births(c, w, actions))
    decreases |actions|
  {
    if actions == [] {
      assert born + [] == born;
    } else {
      StepTraces(c, w, actions[0], born);
      RunTraces(c, Next(c, w, actions[0]), actions[1..], born + BornBy(c, w, actions[0]));
      BirthsOfFirst(c, w, actions, born);
    }
  }

  /** In every run from an empty Redis each job is what its request asked for, and its entries are in its stream. */
  lemma JobsComeFromRequests(c: Settings, actions: seq<Action>)
    requires ValidRun(c, START, actions)
    ensures AllComeFrom(Run(c, START, actions).store.jobs, Births(c, START, actions))
    ensures EntriesLieInStreams(Run(c, START, actions).store)
  {
    assert Inv(c, START);
    RunTraces(c, START, actions, []);
    assert [] + Births(c, START, actions) == Births(c, START, actions);
  }

  // ---- over runs: the cap ----

  /** The unsettled jobs of a user's own lookups and refreshes that were asked for less than 24 hours ago. */
  function YoungJobs(s: Store, born: seq<Birth>, user: UserId): set<JobId> {
    set j | 0 <= j < |s.jobs| && j < |born| && ChargedTo(born[j].request, user)
            && (s.jobs[j].status == Queued || s.jobs[j].status == Running) && s.now < born[j].at + 86400.0
  }

  /** An unsettled job asked for under the same key. */
  ghost predicate KeyIsTaken(s: Store, born: seq<Birth>, key: DedupeKey) {
    exists j :: 0 <= j < |s.jobs| && j < |born| && born[j].request.key == key
                && (s.jobs[j].status == Queued || s.jobs[j].status == Running)
  }

  /**
   In every run a user never has more such jobs than the cap; a further request of the user is refused exactly when
   there are that many and its key is free. Nobody else is ever refused.
   */
  lemma CapCountsRequests(c: Settings, actions: seq<Action>, user: UserId, r: Request)
    requires ValidRun(c, START, actions)
    ensures var s, born := Run(c, START, actions).store, Births(c, START, actions);
            var refused := EnqueueOutcome(s, c.maxActiveJobs, r) == Refused;
            && |born| == |s.jobs|
            && |YoungJobs(s, born, user)| <= c.maxActiveJobs
            && (ChargedTo(r, user) ==>
                  (refused <==> !KeyIsTaken(s, born, r.key) && |YoungJobs(s, born, user)| == c.maxActiveJobs))
            && (refused ==> r.user.Some? && ChargedTo(r, r.user.value))
  {
    var w, born := Run(c, START, actions), Births(c, START, actions);
    JobsComeFromRequests(c, actions);
    StartReachable(c);
    RunStaysReachable(c, START, actions);
    ReachableInv(c, w);
    YoungAreCharged(w.store, born, user);
    TakenIsDeduped(w.store, born, r.key);
    UserCapIsExact(c, w, user, if ChargedTo(r, user) then r else Request(Lookup, Some(user), FullRefresh, None, 1));
  }

  lemma YoungAreCharged(s: Store, born: seq<Birth>, user: UserId)
    requires AllComeFrom(s.jobs, born)
    ensures YoungJobs(s, born, user) == ChargedJobs(s, user)
  {
    forall j | 0 <= j < |s.jobs|
      ensures j in YoungJobs(s, born, user) <==> j in ChargedJobs(s, user)
    {
      assert ComesFrom(s.jobs[j], born[j]);
    }
  }

  lemma TakenIsDeduped(s: Store, born: seq<Birth>, key: DedupeKey)
    requires AllComeFrom(s.jobs, born) && DedupeMatchesLive(s)
    ensures KeyIsTaken(s, born, key) <==> key in s.dedupe
  {
    if key in s.dedupe {
      assert ComesFrom(s.jobs[s.dedupe[key]], born[s.dedupe[key]]);
    }
    if KeyIsTaken(s, born, key) {
      var j :| 0 <= j < |s.jobs| && born[j].request.key == key && Live(s.jobs[j]);
      assert ComesFrom(s.jobs[j], born[j]);
    }
  }

  // ---- over runs: who is subscribed ----

  /** The action is a request that counts against the user and is answered with the job. */
  predicate AsksFor(c: Settings, w: World, a: Action, j: JobId, user: UserId) {
    && a.Enqueue? && ChargedTo(a.request, user)
    && var outcome := EnqueueOutcome(w.store, c.maxActiveJobs, a.request);
       !outcome.Refused? && outcome.id == j
  }

  predicate AskedFor(c: Settings, w: World, actions: seq<Action>, j: JobId, user: UserId)
    requires ValidRun(c, w, actions)
    decreases |actions|
  {
    actions != [] &&
    (AsksFor(c, w, actions[0], j, user) || AskedFor(c, Next(c, w, actions[0]), actions[1..], j, user))
  }

  predicate SubscribedTo(s: Store, j: JobId, user: UserId) {
    j < |s.jobs| && user in s.jobs[j].subscribers
  }

  lemma StepSubscribes(c: Settings, w: World, a: Action, j: JobId, user: UserId)
    requires Enabled(c, w, a) && Inv(c, w)
    ensures SubscribedTo(Next(c, w, a).store, j, user)
            <==> SubscribedTo(w.store, j, user) || AsksFor(c, w, a, j, user)
  {
    match Brought(c, w, a)
    case None => OthersKeepOrigins(c, w, a);
    case Some(r) =>
      BroughtRequestDoes(c, w, a, r);
      EnqueueSubscribes(w.store, NextStore(c, w, a), r, EnqueueOutcome(w.store, c.maxActiveJobs, r), j, user);
  }

  lemma EnqueueSubscribes(s: Store, s': Store, r: Request, outcome: Enqueued, j: JobId, user: UserId)
    requires Effect(s, s', r, outcome)
    ensures SubscribedTo(s', j, user)
            <==> SubscribedTo(s, j, user) || (ChargedTo(r, user) && !outcome.Refused? && outcome.id == j)
  {
    if outcome.Created? && j < |s.jobs| {
      assert s'.jobs[j] == s'.jobs[..|s.jobs|][j] == s.jobs[j];
    }
  }

  lemma {:induction false} RunSubscribes(c: Settings, w: World, actions: seq<Action>, j: JobId, user: UserId)
    requires ValidRun(c, w, actions) && Inv(c, w)
    ensures SubscribedTo(Run(c, w, actions).store, j, user)
            <==> SubscribedTo(w.store, j, user) || AskedFor(c, w, actions, j, user)
    decreases |actions|
  {
    if actions != [] {
      StepSubscribes(c, w, actions[0], j, user);
      StepKeeps(c, w, actions[0]);
      RunSubscribes(c, Next(c, w, actions[0]), actions[1..], j, user);
    }
  }

  /** In every run the subscribers of a job are exactly the users whose lookup or refresh it answered. */
  lemma SubscribersAreAskers(c: Settings, actions: seq<Action>, j: JobId, user: UserId)
    requires ValidRun(c, START, actions) && j < |Run(c, START, actions).store.jobs|
    ensures user in Run(c, START, actions).store.jobs[j].subscribers <==> AskedFor(c, START, actions, j, user)
  {
    assert Inv(c, START);
    RunSubscribes(c, START, actions, j, user);
  }
}
