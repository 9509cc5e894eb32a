/**
 What callers of the queue may rely on, over every run from an empty Redis: a live job is never
 lost and can always still be finished without its old worker, a dedupe key names its one live
 job, and the cap of active jobs is exact.
 */
module QueueGuarantees {
  import opened Options
  import opened JobStore
  import opened JobProtocol
  import opened QueueInvariant
  import opened ReadOrder

  // ---- reachable states ----

  predicate Leads(c: Settings, w: World, a: Action, w': World) {
    Enabled(c, w, a) && w' == Next(c, w, a)
  }

  /** The states a run from an empty Redis goes through. */
  ghost predicate Trace(c: Settings, worlds: seq<World>, actions: seq<Action>) {
    && |worlds| == |actions| + 1 && worlds[0] == START
    && forall i {:trigger actions[i]} | 0 <= i < |actions| :: Leads(c, worlds[i], actions[i], worlds[i + 1])
  }

  ghost predicate Reachable(c: Settings, w: World) {
    exists worlds, actions :: Trace(c, worlds, actions) && worlds[|actions|] == w
  }

  lemma StartReachable(c: Settings)
    ensures Reachable(c, START)
  {
    assert Trace(c, [START], []) && [START][0] == START;
  }

  lemma TraceGrows(c: Settings, worlds: seq<World>, actions: seq<Action>, a: Action, w': World)
    requires Trace(c, worlds, actions) && Leads(c, worlds[|actions|], a, w')
    ensures Trace(c, worlds + [w'], actions + [a])
  {
    var grown, longer := worlds + [w'], actions + [a];
    forall i | 0 <= i < |longer|
      ensures Leads(c, grown[i], longer[i], grown[i + 1])
    {
      if i < |actions| {
        assert Leads(c, worlds[i], actions[i], worlds[i + 1]);
      }
    }
  }

  lemma ReachableNext(c: Settings, w: World, a: Action)
    requires Reachable(c, w) && Enabled(c, w, a)
    ensures Reachable(c, Next(c, w, a))
  {
    var worlds, actions :| Trace(c, worlds, actions) && worlds[|actions|] == w;
    var w' := Next(c, w, a);
    TraceGrows(c, worlds, actions, a, w');
    assert (worlds + [w'])[|actions + [a]|] == w';
  }

  lemma {:induction false} TraceInv(c: Settings, worlds: seq<World>, actions: seq<Action>, i: nat)
    requires Trace(c, worlds, actions) && i <= |actions|
    ensures Inv(c, worlds[i])
  {
    if i == 0 {
      assert Inv(c, START);
    } else {
      TraceInv(c, worlds, actions, i - 1);
      assert Leads(c, worlds[i - 1], actions[i - 1], worlds[i]);
      StepKeeps(c, worlds[i - 1], actions[i - 1]);
    }
  }

  lemma ReachableInv(c: Settings, w: World)
    requires Reachable(c, w)
    ensures Inv(c, w)
  {
    var worlds, actions :| Trace(c, worlds, actions) && worlds[|actions|] == w;
    TraceInv(c, worlds, actions, |actions|);
  }

  lemma {:induction false} TraceIsRun(c: Settings, worlds: seq<World>, actions: seq<Action>, i: nat)
    requires Trace(c, worlds, actions) && i <= |actions|
    ensures ValidRun(c, worlds[i], actions[i..]) && Run(c, worlds[i], actions[i..]) == worlds[|actions|]
    decreases |actions| - i
  {
    if i < |actions| {
      assert Leads(c, worlds[i], actions[i], worlds[i + 1]);
      assert actions[i..][1..] == actions[i + 1..];
      TraceIsRun(c, worlds, actions, i + 1);
    }
  }

  lemma {:induction false} RunStaysReachable(c: Settings, w: World, actions: seq<Action>)
    requires Reachable(c, w) && ValidRun(c, w, actions)
    ensures Reachable(c, Run(c, w, actions))
    decreases |actions|
  {
    if actions != [] {
      ReachableNext(c, w, actions[0]);
      RunStaysReachable(c, Next(c, w, actions[0]), actions[1..]);
    }
  }

  /** A state is reachable exactly when some run from an empty Redis ends in it. */
  lemma ReachableIffRun(c: Settings, w: World)
    ensures Reachable(c, w) <==> exists actions :: ValidRun(c, START, actions) && Run(c, START, actions) == w
  {
    if Reachable(c, w) {
      var worlds, actions :| Trace(c, worlds, actions) && worlds[|actions|] == w;
      TraceIsRun(c, worlds, actions, 0);
      assert actions[0..] == actions;
    }
    if actions :| ValidRun(c, START, actions) && Run(c, START, actions) == w {
      StartReachable(c);
      RunStaysReachable(c, START, actions);
    }
  }

  /** No job is ever lost, wherever workers crash. */
  lemma NoJobIsLost(c: Settings, w: World, j: JobId)
    requires Reachable(c, w) && j < |w.store.jobs|
    ensures w.store.jobs[j].status == Running <==> j in w.store.active
    ensures w.store.jobs[j].status == Queued ==>
      || j in w.store.scheduled
      || exists e :: 0 <= e < |w.store.log| && w.store.log[e].job == j
           && w.store.log[e].state != Acknowledged && e !in w.doomed
  {
    ReachableInv(c, w);
    if w.store.jobs[j].status == Queued && j !in w.store.scheduled {
      assert HasEntry(w, j);
    }
  }

  // ---- a live job can always still be finished ----

  /**
   What the code itself does from `start` on: workers read in the order of priority, promotion takes due jobs,
   recovery takes expired leases and entries that have been idle for as long as a lease, and nobody relies on
   a claim made before. An entry that was pending at `start` has been idle at least since then.
   */
  predicate CodeDoes(c: Settings, start: World, w: World, a: Action) {
    && Enabled(c, w, a)
    && match a
       case Deliver(e) => NextEntry(w.store.log) == Some(e)
       case Promote(j) => j in w.store.scheduled && w.store.scheduled[j] <= w.store.now
       case RecoverEntry(e) =>
         && e < |start.store.log| && start.store.log[e].state == Pending
         && start.store.now + JOB_LEASE_SECONDS <= w.store.now
       case RecoverExpired(j) => j in w.store.active && w.store.active[j] <= w.store.now
       case Finish(_, token, _, _, _) => start.issued <= token
       case Claim(_) => true
       case AckFailedClaim(_) => true
       case Tick(_) => true
       case _ => false
  }

  predicate CodeRun(c: Settings, start: World, w: World, actions: seq<Action>)
    decreases |actions|
  {
    actions == [] || (CodeDoes(c, start, w, actions[0]) && CodeRun(c, start, Next(c, w, actions[0]), actions[1..]))
  }

  ghost predicate Settles(
    c: Settings, start: World, w: World, actions: seq<Action>, j: JobId, status: Status)
  {
    && ValidRun(c, w, actions)
    && CodeRun(c, start, w, actions)
    && j < |Run(c, w, actions).store.jobs|
    && Run(c, w, actions).store.jobs[j].status == status
  }

  lemma FirstThen(
    c: Settings, start: World, w: World, a: Action, rest: seq<Action>, j: JobId, status: Status)
    requires CodeDoes(c, start, w, a) && Settles(c, start, Next(c, w, a), rest, j, status)
    ensures Settles(c, start, w, [a] + rest, j, status)
  {
    assert ([a] + rest)[1..] == rest;
  }

  /** The job is queued and this entry of it has not been read. */
  predicate Waits(s: Store, j: JobId, e: EntryId) {
    && j < |s.jobs| && s.jobs[j].status == Queued
    && e < |s.log| && s.log[e].job == j && s.log[e].state == Waiting
  }

  function Unread(log: seq<Entry>): set<EntryId> {
    set e | 0 <= e < |log| && log[e].state == Waiting
  }

  lemma ReadingShrinksUnread(log: seq<Entry>, e: EntryId)
    requires e < |log| && log[e].state == Waiting
    ensures |Unread(log[e := log[e].(state := Pending)])| < |Unread(log)|
  {
    assert Unread(log[e := log[e].(state := Pending)]) == Unread(log) - {e};
  }

  lemma AcknowledgingKeepsUnread(log: seq<Entry>, entry: Option<EntryId>)
    ensures Unread(AcknowledgeOf(log, entry)) == Unread(log)
  {
  }

  lemma ClaimedFinishes(c: Settings, start: World, w: World, j: JobId, t: Token, status: Status)
    returns (actions: seq<Action>)
    requires Holds(w.store, j, t) && start.issued <= t && Terminal(status)
    ensures Settles(c, start, w, actions, j, status)
  {
    var finish := Finish(j, t, status, None, None);
    assert Settles(c, start, Next(c, w, finish), [], j, status);
    FirstThen(c, start, w, finish, [], j, status);
    actions := [finish] + [];
  }

  /** Reading, claiming and finishing some other job, or acknowledging its entry, leaves this one waiting. */
  lemma OtherEntryIsDrained(c: Settings, start: World, w: World, first: EntryId, j: JobId, e: EntryId)
    returns (last: Action)
    requires Waits(w.store, j, e) && NextEntry(w.store.log) == Some(first) && first < |w.store.log|
    requires w.store.log[first].state == Waiting && w.store.log[first].job != j && start.issued <= w.issued
    ensures var read := Next(c, w, Deliver(first));
            var claimed := Next(c, read, Claim(first));
            && CodeDoes(c, start, w, Deliver(first)) && CodeDoes(c, start, read, Claim(first))
            && CodeDoes(c, start, claimed, last)
            && var end := Next(c, claimed, last);
               Waits(end.store, j, e) && end.issued == w.issued + 1 && |Unread(end.store.log)| < |Unread(w.store.log)|
  {
    var k, token := w.store.log[first].job, w.issued;
    var claimed := Next(c, Next(c, w, Deliver(first)), Claim(first));
    OtherEntryIsClaimed(c, start, w, first, j, e);
    if Holds(claimed.store, k, token) {
      last := Finish(k, token, Success, None, None);
      FinishKeepsWaiting(claimed.store, k, token, j, e);
    } else {
      last := AckFailedClaim(first);
      AckKeepsWaiting(claimed.store, first, j, e);
    }
  }

  lemma AckKeepsWaiting(s: Store, first: EntryId, j: JobId, e: EntryId)
    requires Waits(s, j, e)
    ensures Waits(AfterAck(s, first), j, e) && Unread(AfterAck(s, first).log) == Unread(s.log)
  {
    AcknowledgingKeepsUnread(s.log, Some(first));
  }

  lemma OtherEntryIsClaimed(c: Settings, start: World, w: World, first: EntryId, j: JobId, e: EntryId)
    requires Waits(w.store, j, e) && NextEntry(w.store.log) == Some(first) && first < |w.store.log|
    requires w.store.log[first].state == Waiting && w.store.log[first].job != j
    ensures var read := Next(c, w, Deliver(first));
            && CodeDoes(c, start, w, Deliver(first)) && CodeDoes(c, start, read, Claim(first))
            && var claimed := Next(c, read, Claim(first));
               && Waits(claimed.store, j, e) && claimed.issued == w.issued + 1
               && |Unread(claimed.store.log)| < |Unread(w.store.log)|
               && (Holds(claimed.store, w.store.log[first].job, w.issued) || first in claimed.doomed)
  {
    ReadingShrinksUnread(w.store.log, first);
  }

  lemma FinishKeepsWaiting(s: Store, k: JobId, token: Token, j: JobId, e: EntryId)
    requires Waits(s, j, e) && k != j
    ensures Waits(AfterFinish(s, k, token, Success, None, None), j, e)
    ensures Unread(AfterFinish(s, k, token, Success, None, None).log) == Unread(s.log)
  {
    if k < |s.jobs| {
      AcknowledgingKeepsUnread(s.log, s.jobs[k].entry);
    }
  }

  /** The worker reads until it comes to the job, under this entry or another one of it. */
  lemma {:induction false} WaitingFinishes(
    c: Settings, start: World, w: World, j: JobId, e: EntryId, status: Status)
    returns (actions: seq<Action>)
    requires Waits(w.store, j, e) && start.issued <= w.issued && Terminal(status)
    ensures Settles(c, start, w, actions, j, status)
    decreases |Unread(w.store.log)|
  {
    NextEntryIsMostUrgent(w.store.log);
    var first := NextEntry(w.store.log).value;
    var read := Next(c, w, Deliver(first));
    var claimed := Next(c, read, Claim(first));
    var rest: seq<Action>;
    if w.store.log[first].job == j {
      rest := ClaimedFinishes(c, start, claimed, j, w.issued, status);
    } else {
      var last := OtherEntryIsDrained(c, start, w, first, j, e);
      rest := WaitingFinishes(c, start, Next(c, claimed, last), j, e, status);
      FirstThen(c, start, claimed, last, rest, j, status);
      rest := [last] + rest;
    }
    FirstThen(c, start, read, Claim(first), rest, j, status);
    FirstThen(c, start, w, Deliver(first), [Claim(first)] + rest, j, status);
    actions := [Deliver(first)] + ([Claim(first)] + rest);
  }

  /** After a wait, one step puts a waiting entry of the job at the end of the log. */
  lemma WaitThenFinishes(c: Settings, w: World, wait: Time, a: Action, j: JobId, status: Status)
    returns (actions: seq<Action>)
    requires Terminal(status) && wait >= 0.0 && CodeDoes(c, w, Next(c, w, Tick(wait)), a)
    requires var back := Next(c, Next(c, w, Tick(wait)), a);
             Waits(back.store, j, |w.store.log|) && w.issued <= back.issued
    ensures Settles(c, w, w, actions, j, status)
  {
    var later := Next(c, w, Tick(wait));
    var rest := WaitingFinishes(c, w, Next(c, later, a), j, |w.store.log|, status);
    FirstThen(c, w, later, a, rest, j, status);
    FirstThen(c, w, w, Tick(wait), [a] + rest, j, status);
    actions := [Tick(wait)] + ([a] + rest);
  }

  lemma QueuedFinishes(c: Settings, w: World, j: JobId, status: Status) returns (actions: seq<Action>)
    requires Inv(c, w) && j < |w.store.jobs| && w.store.jobs[j].status == Queued && Terminal(status)
    ensures Settles(c, w, w, actions, j, status)
  {
    if j in w.store.scheduled {
      actions := ScheduledFinishes(c, w, j, status);
    } else {
      assert HasEntry(w, j);
      var e :| 0 <= e < |w.store.log| && w.store.log[e].job == j && w.store.log[e].state != Acknowledged;
      if w.store.log[e].state == Waiting {
        actions := WaitingFinishes(c, w, w, j, e, status);
      } else {
        actions := PendingFinishes(c, w, j, e, status);
      }
    }
  }

  lemma ScheduledFinishes(c: Settings, w: World, j: JobId, status: Status) returns (actions: seq<Action>)
    requires j < |w.store.jobs| && w.store.jobs[j].status == Queued && j in w.store.scheduled && Terminal(status)
    ensures Settles(c, w, w, actions, j, status)
  {
    var wait := if w.store.scheduled[j] <= w.store.now then 0.0 else w.store.scheduled[j] - w.store.now;
    actions := WaitThenFinishes(c, w, wait, Promote(j), j, status);
  }

  lemma PendingFinishes(c: Settings, w: World, j: JobId, e: EntryId, status: Status)
    returns (actions: seq<Action>)
    requires j < |w.store.jobs| && w.store.jobs[j].status == Queued && Terminal(status)
    requires e < |w.store.log| && w.store.log[e].job == j && w.store.log[e].state == Pending
    ensures Settles(c, w, w, actions, j, status)
  {
    actions := WaitThenFinishes(c, w, JOB_LEASE_SECONDS, RecoverEntry(e), j, status);
  }

  lemma RunningFinishes(c: Settings, w: World, j: JobId, status: Status) returns (actions: seq<Action>)
    requires j < |w.store.jobs| && w.store.jobs[j].status == Running && j in w.store.active && Terminal(status)
    ensures Settles(c, w, w, actions, j, status)
  {
    var wait := if LeaseLive(w.store, j) then w.store.active[j] - w.store.now else 0.0;
    actions := WaitThenFinishes(c, w, wait, RecoverExpired(j), j, status);
  }

  /**
   From every reachable state every live job can still be brought to any outcome by what the code does, whatever
   happened to its old worker: nobody needs an old claim, and no step comes before its time or out of order.
   */
  lemma LiveJobCanStillFinish(c: Settings, w: World, j: JobId, status: Status)
    requires Reachable(c, w) && j < |w.store.jobs| && Live(w.store.jobs[j]) && Terminal(status)
    ensures exists actions :: Settles(c, w, w, actions, j, status)
  {
    ReachableInv(c, w);
    if w.store.jobs[j].status == Queued {
      var actions := QueuedFinishes(c, w, j, status);
    } else {
      var actions := RunningFinishes(c, w, j, status);
    }
  }

  // ---- dedupe keys and the cap ----

  /** At most one live job per key, and the key is set exactly while there is one. */
  lemma KeyNamesItsLiveJob(c: Settings, w: World, i: JobId, j: JobId)
    requires Reachable(c, w) && i < |w.store.jobs| && j < |w.store.jobs|
    ensures Live(w.store.jobs[i]) && Live(w.store.jobs[j]) && w.store.jobs[i].key == w.store.jobs[j].key ==> i == j
    ensures Live(w.store.jobs[j]) <==>
              w.store.jobs[j].key in w.store.dedupe && w.store.dedupe[w.store.jobs[j].key] == j
  {
    ReachableInv(c, w);
  }

  /** What a web process gets back names a live job of the key it asked for, and lists it as a subscriber. */
  lemma EnqueueReturnsLiveJob(c: Settings, w: World, r: Request)
    requires Reachable(c, w)
    ensures var outcome := EnqueueOutcome(w.store, c.maxActiveJobs, r);
            var s' := AfterEnqueue(w.store, c.maxActiveJobs, r);
            !outcome.Refused? ==>
              && outcome.id < |s'.jobs| && Live(s'.jobs[outcome.id]) && s'.jobs[outcome.id].key == r.key
              && (forall u | r.user == Some(u) && (r.kind == Lookup || r.kind == RefreshOne) ::
                    u in s'.jobs[outcome.id].subscribers)
              && (outcome.Existing? <==> |s'.jobs| == |w.store.jobs|)
              && (forall j | 0 <= j < |w.store.jobs| && j != outcome.id :: s'.jobs[j] == w.store.jobs[j])
  {
    ReachableInv(c, w);
  }

  /** The jobs that count against the cap of a user. */
  function ChargedJobs(s: Store, user: UserId): set<JobId> {
    set j | 0 <= j < |s.jobs| && Charged(s, user, j)
  }

  lemma LiveSlotsAreChargedJobs(c: Settings, s: Store, user: UserId)
    requires SlotsCoverCharged(c, s)
    ensures LiveSlots(SlotsOf(s, user), s.now).Keys == ChargedJobs(s, user)
  {
    if user in s.slots {
      assert SlotsOwned(s.jobs, user, s.slots[user]);
    }
    forall j | j in LiveSlots(SlotsOf(s, user), s.now)
      ensures j in ChargedJobs(s, user)
    {
      assert SlotOwned(s.jobs, user, j, s.slots[user][j]);
    }
    forall j | j in ChargedJobs(s, user)
      ensures j in LiveSlots(SlotsOf(s, user), s.now)
    {
      assert SlotOwned(s.jobs, user, j, s.slots[user][j]);
    }
  }

  /** Nobody owns more than the cap, and a request is refused exactly when its user already owns that many. */
  lemma UserCapIsExact(c: Settings, w: World, user: UserId, r: Request)
    requires Reachable(c, w) && (r.kind == Lookup || r.kind == RefreshOne) && r.user == Some(user)
    ensures |ChargedJobs(w.store, user)| <= c.maxActiveJobs
    ensures EnqueueOutcome(w.store, c.maxActiveJobs, r) == Refused <==>
              r.key !in w.store.dedupe && |ChargedJobs(w.store, user)| == c.maxActiveJobs
  {
    ReachableInv(c, w);
    assert user in w.store.slots ==> |w.store.slots[user]| <= c.maxActiveJobs;
    assert r.key in w.store.dedupe ==> Duplicates(w.store, r);
    LiveSlotsAreChargedJobs(c, w.store, user);
    LiveSlotsShrink(SlotsOf(w.store, user), w.store.now);
    assert |LiveSlots(SlotsOf(w.store, user), w.store.now)| == |LiveSlots(SlotsOf(w.store, user), w.store.now).Keys|;
  }

  /** A job of the user that is live although its slot has lapsed. */
  predicate Outlived(s: Store, user: UserId, j: JobId) {
    && j < |s.jobs| && Live(s.jobs[j]) && s.jobs[j].owner == Some(user)
    && s.jobs[j].createdAt + JOB_STATUS_TTL_SECONDS <= s.now
  }

  function OutlivedJobs(s: Store, user: UserId): set<JobId> {
    set j | 0 <= j < |s.jobs| && Outlived(s, user, j)
  }

  function LiveJobsOf(s: Store, user: UserId): set<JobId> {
    set j | 0 <= j < |s.jobs| && Live(s.jobs[j]) && s.jobs[j].owner == Some(user)
  }

  /**
   The cap bounds all live jobs of a user if and only if those that outlived the status TTL fit beside the
   younger ones; so it does whenever none has outlived it.
   */
  lemma UserCapBoundsAllLiveJobs(c: Settings, w: World, user: UserId)
    requires Reachable(c, w)
    ensures |LiveJobsOf(w.store, user)| <= c.maxActiveJobs
            <==> |OutlivedJobs(w.store, user)| <= c.maxActiveJobs - |ChargedJobs(w.store, user)|
    ensures OutlivedJobs(w.store, user) == {} ==> |LiveJobsOf(w.store, user)| <= c.maxActiveJobs
  {
    UserCapIsExact(c, w, user, Request(Lookup, Some(user), FullRefresh, None, 1));
    assert LiveJobsOf(w.store, user) == ChargedJobs(w.store, user) + OutlivedJobs(w.store, user);
  }

  /**
   A request under a free key creates a job if and only if fewer live jobs of its user than the cap are younger
   than the status TTL; for a user with exactly as many live jobs as the cap, if and only if one outlived it.
   */
  lemma CapIsExceededIff(c: Settings, w: World, user: UserId, r: Request)
    requires Reachable(c, w) && (r.kind == Lookup || r.kind == RefreshOne) && r.user == Some(user)
    ensures r.key !in w.store.dedupe ==>
              (EnqueueOutcome(w.store, c.maxActiveJobs, r).Created? <==> |ChargedJobs(w.store, user)| < c.maxActiveJobs)
    ensures r.key !in w.store.dedupe && |LiveJobsOf(w.store, user)| == c.maxActiveJobs ==>
              (EnqueueOutcome(w.store, c.maxActiveJobs, r).Created? <==> exists j :: Outlived(w.store, user, j))
  {
    UserCapIsExact(c, w, user, r);
    var live, charged := LiveJobsOf(w.store, user), ChargedJobs(w.store, user);
    if r.key !in w.store.dedupe && |live| == c.maxActiveJobs {
      if exists j :: Outlived(w.store, user, j) {
        var j :| Outlived(w.store, user, j);
        assert charged <= live - {j};
        SubsetSize(charged, live - {j});
      } else {
        assert forall j | j in live :: !Outlived(w.store, user, j);
        assert charged == live;
      }
    }
  }

  function LookupOf(user: UserId, key: DedupeKey): Request {
    Request(Lookup, Some(user), key, None, 1)
  }

  ghost predicate LapseBy(slots: map<JobId, Time>, t: Time) {
    forall j | j in slots :: slots[j] <= t
  }

  /** One job, of this user and under this key; its slot lapses with the first TTL. */
  ghost predicate OneJob(s: Store, user: UserId, key: DedupeKey, status: Status) {
    && |s.jobs| == 1 && s.jobs[0].status == status && s.jobs[0].owner == Some(user)
    && |s.log| == 1 && s.log[0].job == 0
    && (forall k | k in s.dedupe :: k == key)
    && LapseBy(SlotsOf(s, user), JOB_STATUS_TTL_SECONDS)
  }

  lemma LookupQueued(c: Settings, user: UserId, key: DedupeKey) returns (w: World)
    requires c.maxActiveJobs == 1 && !key.RefreshItem?
    ensures Reachable(c, w) && w.store.now == 0.0 && OneJob(w.store, user, key, Queued)
              && w.store.log[0].state == Waiting
  {
    StartReachable(c);
    ReachableNext(c, START, Enqueue(LookupOf(user, key)));
    w := Next(c, START, Enqueue(LookupOf(user, key)));
  }

  lemma LookupRead(c: Settings, user: UserId, key: DedupeKey) returns (w: World)
    requires c.maxActiveJobs == 1 && !key.RefreshItem?
    ensures Reachable(c, w) && w.store.now == JOB_STATUS_TTL_SECONDS / 2.0
    ensures OneJob(w.store, user, key, Queued) && 0 in w.hands
  {
    var queued := LookupQueued(c, user, key);
    ReachableNext(c, queued, Tick(JOB_STATUS_TTL_SECONDS / 2.0));
    var later := Next(c, queued, Tick(JOB_STATUS_TTL_SECONDS / 2.0));
    ReachableNext(c, later, Deliver(0));
    w := Next(c, later, Deliver(0));
    assert w.store.slots == queued.store.slots;
  }

  /** Claimed twelve hours after it was queued, and still running after another twelve. */
  lemma LookupRunsLong(c: Settings, user: UserId, key: DedupeKey) returns (w: World)
    requires c.maxActiveJobs == 1 && !key.RefreshItem?
    ensures Reachable(c, w) && w.store.now == JOB_STATUS_TTL_SECONDS && OneJob(w.store, user, key, Running)
  {
    var read := LookupRead(c, user, key);
    ReachableNext(c, read, Claim(0));
    var claimed := Next(c, read, Claim(0));
    ReachableNext(c, claimed, Tick(JOB_STATUS_TTL_SECONDS / 2.0));
    w := Next(c, claimed, Tick(JOB_STATUS_TTL_SECONDS / 2.0));
    assert w.store.slots == read.store.slots;
  }

  lemma LapsedSlotsAreDead(slots: map<JobId, Time>, now: Time)
    requires LapseBy(slots, now)
    ensures LiveSlots(slots, now) == map[]
  {
  }

  lemma LapsedSlotLeavesRoom(s: Store, user: UserId, key: DedupeKey, other: DedupeKey)
    requires OneJob(s, user, key, Running) && s.now == JOB_STATUS_TTL_SECONDS && key != other
    ensures var s' := AfterEnqueue(s, 1, LookupOf(user, other));
            |s'.jobs| == 2 && forall j | 0 <= j < 2 :: Live(s'.jobs[j]) && s'.jobs[j].owner == Some(user)
  {
    LapsedSlotsAreDead(SlotsOf(s, user), s.now);
    assert other !in s.dedupe && !OverCap(s, 1, LookupOf(user, other));
  }

  /** Its slot has lapsed by then, so with a cap of one the user gets a second live job. */
  lemma CapLapsesWithTtl(c: Settings, user: UserId, key: DedupeKey, other: DedupeKey) returns (w: World)
    requires c.maxActiveJobs == 1 && key != other && !key.RefreshItem? && !other.RefreshItem?
    ensures Reachable(c, w) && |w.store.jobs| == 2
    ensures forall j | 0 <= j < 2 :: Live(w.store.jobs[j]) && w.store.jobs[j].owner == Some(user)
  {
    var late := LookupRunsLong(c, user, key);
    ReachableNext(c, late, Enqueue(LookupOf(user, other)));
    w := Next(c, late, Enqueue(LookupOf(user, other)));
    LapsedSlotLeavesRoom(late.store, user, key, other);
  }
}
