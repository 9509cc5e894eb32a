/**
 The lock of the full refresh and its daily limit: a key with a token and an expiry, renewed and
 released only by its holder, and two per-day keys that decide who may start.
 */
module FullRefreshLock {
  import opened Options

  type Token = nat
  type Day = int

  const SECONDS_PER_DAY := 86400

  datatype Origin = Manual | Scheduled

  /**
   DADATA_FULL_REFRESH_DAILY_LIMIT, DADATA_FULL_REFRESH_LOCK_TTL_SECONDS and
   DADATA_ALLOW_MANUAL_FULL_REFRESH_AFTER_SCHEDULED.
   */
  datatype Settings = Settings(dailyLimit: nat, ttl: nat, allowOverride: bool)

  /** The keys in Redis. */
  datatype Keys = Keys(lock: Option<(Token, int)>, counts: map<Day, nat>, lastOrigin: map<Day, Origin>)

  function DayOf(now: int): Day {
    now / SECONDS_PER_DAY
  }

  function CountOn(k: Keys, day: Day): nat {
    if day in k.counts then k.counts[day] else 0
  }

  predicate Locked(k: Keys, now: int) {
    k.lock.Some? && now < k.lock.value.1
  }

  predicate HeldBy(k: Keys, now: int, token: Token) {
    Locked(k, now) && k.lock.value.0 == token
  }

  predicate MayStart(c: Settings, k: Keys, day: Day, origin: Origin) {
    || CountOn(k, day) < c.dailyLimit
    || (origin == Manual && c.allowOverride && day in k.lastOrigin && k.lastOrigin[day] == Scheduled)
  }

  predicate Acquires(c: Settings, k: Keys, now: int, origin: Origin) {
    !Locked(k, now) && MayStart(c, k, DayOf(now), origin)
  }

  function AfterAcquire(c: Settings, k: Keys, now: int, token: Token, origin: Origin): Keys {
    if Acquires(c, k, now, origin) then k.(lock := Some((token, now + c.ttl))) else k
  }

  function AfterRenew(c: Settings, k: Keys, now: int, token: Token): Keys {
    if HeldBy(k, now, token) then k.(lock := Some((token, now + c.ttl))) else k
  }

  function AfterRelease(k: Keys, now: int, token: Token): Keys {
    if HeldBy(k, now, token) then k.(lock := None) else k
  }

  /** `mark_full_refresh_done` names no token: whoever calls it counts. */
  function AfterMark(k: Keys, now: int, origin: Origin): Keys {
    k.(counts := k.counts[DayOf(now) := CountOn(k, DayOf(now)) + 1], lastOrigin := k.lastOrigin[DayOf(now) := origin])
  }

  /** Release and renewal by anybody but the holder leave the lock alone. */
  lemma ForeignTokenIsPowerless(c: Settings, k: Keys, now: int, token: Token)
    ensures !HeldBy(k, now, token) ==> AfterRenew(c, k, now, token) == k && AfterRelease(k, now, token) == k
    ensures HeldBy(k, now, token) ==>
              HeldBy(AfterRenew(c, k, now, token), now, token) || c.ttl == 0
    ensures HeldBy(k, now, token) ==> !Locked(AfterRelease(k, now, token), now)
  {
  }

  // ---- the processes ----

  /**
   A refresh inside its `async with`: who it is, the day it started, whether it has marked itself done, and
   whether its renewal task has found the lock lost, which `ensure_active` raises before the mark.
   */
  datatype Holder = Holder(origin: Origin, day: Day, marked: bool, lost: bool)
  datatype Mark = Mark(day: Day, origin: Origin)

  /** `marks` records the completed refreshes in order. */
  datatype World = World(keys: Keys, now: int, issued: Token, holders: map<Token, Holder>, marks: seq<Mark>)

  datatype Action =
    | Acquire(origin: Origin)
    | Renew(token: Token)
    | Release(token: Token)
    | MarkDone(token: Token)
    | Tick(seconds: nat)

  const START := World(Keys(None, map[], map[]), 0, 0, map[], [])

  /** What the processes can do. `MarkDone` is the check of the lease and the mark that follows it. */
  predicate Possible(c: Settings, w: World, a: Action) {
    match a
    case Acquire(_) => c.ttl > 0
    case Renew(t) => t in w.holders
    case Release(t) => t in w.holders
    case MarkDone(t) => t in w.holders && !w.holders[t].marked && !w.holders[t].lost
    case Tick(_) => true
  }

  /** Renewals land before the expiry: time never reaches it while somebody is inside. */
  predicate Enabled(c: Settings, w: World, a: Action) {
    Possible(c, w, a) && (a.Tick? && w.holders != map[] ==> Locked(w.keys, w.now + a.seconds))
  }

  function Next(c: Settings, w: World, a: Action): World
    requires a.MarkDone? || a.Renew? ==> a.token in w.holders
  {
    match a
    case Acquire(origin) =>
      var keys := AfterAcquire(c, w.keys, w.now, w.issued, origin);
      if Acquires(c, w.keys, w.now, origin) then
        w.(keys := keys, issued := w.issued + 1,
           holders := w.holders[w.issued := Holder(origin, DayOf(w.now), false, false)])
      else w.(issued := w.issued + 1)
    case Renew(t) =>
      w.(keys := AfterRenew(c, w.keys, w.now, t),
         holders := w.holders[t := w.holders[t].(lost := w.holders[t].lost || !HeldBy(w.keys, w.now, t))])
    case Release(t) => w.(keys := AfterRelease(w.keys, w.now, t), holders := w.holders - {t})
    case MarkDone(t) =>
      var holder := w.holders[t];
      w.(keys := AfterMark(w.keys, w.now, holder.origin),
         holders := w.holders[t := holder.(marked := true)],
         marks := w.marks + [Mark(DayOf(w.now), holder.origin)])
    case Tick(d) => w.(now := w.now + d)
  }

  /** The origins of the refreshes completed on a day, in order. */
  function OriginsOn(marks: seq<Mark>, day: Day): seq<Origin> {
    if marks == [] then []
    else
      var last := marks[|marks| - 1];
      OriginsOn(marks[..|marks| - 1], day) + (if last.day == day then [last.origin] else [])
  }

  // ---- the invariant ----

  /** Everybody inside holds the lock. */
  predicate NotLost(w: World) {
    forall t | t in w.holders :: t < w.issued && HeldBy(w.keys, w.now, t)
  }

  /** The two keys of a day summarise its marks. */
  predicate DayKeysOk(w: World, day: Day) {
    var origins := OriginsOn(w.marks, day);
    && CountOn(w.keys, day) == |origins|
    && (day in w.keys.lastOrigin <==> origins != [])
    && (origins != [] ==> w.keys.lastOrigin[day] == origins[|origins| - 1])
  }

  /** At most one beyond the limit, and that one manual, right after a scheduled one. */
  predicate DayBounded(c: Settings, marks: seq<Mark>, day: Day) {
    var origins := OriginsOn(marks, day);
    || |origins| <= c.dailyLimit
    || (&& |origins| == c.dailyLimit + 1 >= 2 && c.allowOverride
        && origins[|origins| - 1] == Manual && origins[|origins| - 2] == Scheduled)
  }

  /** A refresh that has not marked itself yet still may: nobody marked since it started. */
  predicate HolderOk(c: Settings, w: World, h: Holder) {
    && c.dailyLimit > 0 && h.day <= DayOf(w.now)
    && (!h.marked ==> MayStart(c, w.keys, h.day, h.origin) && NoMarkAfter(w.marks, h.day))
  }

  ghost predicate Inv(c: Settings, w: World) {
    && NotLost(w)
    && NoMarkAfter(w.marks, DayOf(w.now))
    && (c.dailyLimit == 0 ==> w.marks == [])
    && AllDayKeysOk(w) && AllDaysBounded(c, w.marks)
    && (forall t | t in w.holders :: HolderOk(c, w, w.holders[t]))
  }

  predicate NoMarkAfter(marks: seq<Mark>, day: Day) {
    forall i | 0 <= i < |marks| :: marks[i].day <= day
  }

  ghost predicate AllDaysBounded(c: Settings, marks: seq<Mark>) {
    forall day :: DayBounded(c, marks, day)
  }

  ghost predicate AllDayKeysOk(w: World) {
    forall day :: DayKeysOk(w, day)
  }

  lemma OneHolder(w: World, a: Token, b: Token)
    requires NotLost(w) && a in w.holders && b in w.holders
    ensures a == b
  {
  }

  lemma NobodyInside(w: World)
    requires NotLost(w) && !Locked(w.keys, w.now)
    ensures w.holders == map[]
  {
    assert forall t :: t !in w.holders;
  }

  lemma {:induction false} NoMarksLater(marks: seq<Mark>, day: Day)
    requires forall i | 0 <= i < |marks| :: marks[i].day < day
    ensures OriginsOn(marks, day) == []
  {
    if marks != [] {
      NoMarksLater(marks[..|marks| - 1], day);
    }
  }

  lemma OriginsAfterMark(marks: seq<Mark>, m: Mark, day: Day)
    ensures OriginsOn(marks + [m], day) == OriginsOn(marks, day) + (if m.day == day then [m.origin] else [])
  {
    assert (marks + [m])[..|marks|] == marks;
  }

  lemma AcquireKeeps(c: Settings, w: World, origin: Origin)
    requires Inv(c, w) && Enabled(c, w, Acquire(origin))
    ensures Inv(c, Next(c, w, Acquire(origin)))
  {
    var w' := Next(c, w, Acquire(origin));
    assert DayKeysOk(w, DayOf(w.now));
    if Acquires(c, w.keys, w.now, origin) {
      NobodyInside(w);
    }
    forall day
      ensures DayKeysOk(w', day) && DayBounded(c, w'.marks, day)
    {
      assert DayKeysOk(w, day);
    }
  }

  lemma RenewKeeps(c: Settings, w: World, t: Token)
    requires Inv(c, w) && c.ttl > 0 && t in w.holders
    ensures Inv(c, Next(c, w, Renew(t)))
  {
    var w' := Next(c, w, Renew(t));
    forall day
      ensures DayKeysOk(w', day) && DayBounded(c, w'.marks, day)
    {
      assert DayKeysOk(w, day);
    }
  }

  lemma ReleaseKeeps(c: Settings, w: World, t: Token)
    requires Inv(c, w) && t in w.holders
    ensures Inv(c, Next(c, w, Release(t)))
  {
    var w' := Next(c, w, Release(t));
    forall other | other in w'.holders
      ensures false
    {
      OneHolder(w, t, other);
    }
    forall day
      ensures DayKeysOk(w', day) && DayBounded(c, w'.marks, day)
    {
      assert DayKeysOk(w, day);
    }
  }

  /** Marking by the holder: on the day it started it had leave to, on a later day it is the first. */
  lemma MarkStaysBounded(c: Settings, w: World, t: Token)
    requires Inv(c, w) && Enabled(c, w, MarkDone(t))
    ensures DayBounded(c, Next(c, w, MarkDone(t)).marks, DayOf(w.now))
  {
    var today, holder := DayOf(w.now), w.holders[t];
    assert HolderOk(c, w, holder) && DayKeysOk(w, today) && DayBounded(c, w.marks, today);
    OriginsAfterMark(w.marks, Mark(today, holder.origin), today);
    if holder.day < today {
      NoMarksLater(w.marks, today);
    }
  }

  lemma MarkKeeps(c: Settings, w: World, t: Token)
    requires Inv(c, w) && Enabled(c, w, MarkDone(t))
    ensures Inv(c, Next(c, w, MarkDone(t)))
  {
    var w' := Next(c, w, MarkDone(t));
    assert HolderOk(c, w, w.holders[t]);
    forall day
      ensures DayKeysOk(w', day) && DayBounded(c, w'.marks, day)
    {
      MarkKeepsDay(c, w, t, day);
    }
    forall other | other in w'.holders
      ensures HolderOk(c, w', w'.holders[other])
    {
      OneHolder(w, t, other);
    }
  }

  lemma MarkKeepsDay(c: Settings, w: World, t: Token, day: Day)
    requires Inv(c, w) && Enabled(c, w, MarkDone(t))
    ensures DayKeysOk(Next(c, w, MarkDone(t)), day) && DayBounded(c, Next(c, w, MarkDone(t)).marks, day)
  {
    assert DayKeysOk(w, day) && DayBounded(c, w.marks, day);
    OriginsAfterMark(w.marks, Mark(DayOf(w.now), w.holders[t].origin), day);
    if day == DayOf(w.now) {
      MarkStaysBounded(c, w, t);
    }
  }

  lemma TickKeeps(c: Settings, w: World, d: nat)
    requires Inv(c, w) && Enabled(c, w, Tick(d))
    ensures Inv(c, Next(c, w, Tick(d)))
  {
    var w' := Next(c, w, Tick(d));
    forall day
      ensures DayKeysOk(w', day) && DayBounded(c, w'.marks, day)
    {
      assert DayKeysOk(w, day);
    }
    forall t | t in w'.holders
      ensures HolderOk(c, w', w'.holders[t]) && HeldBy(w'.keys, w'.now, t)
    {
      assert HolderOk(c, w, w.holders[t]) && HeldBy(w.keys, w.now, t);
    }
  }

  lemma StepKeeps(c: Settings, w: World, a: Action)
    requires Inv(c, w) && c.ttl > 0 && Enabled(c, w, a)
    ensures Inv(c, Next(c, w, a))
  {
    match a
    case Acquire(origin) => AcquireKeeps(c, w, origin);
    case Renew(t) => RenewKeeps(c, w, t);
    case Release(t) => ReleaseKeeps(c, w, t);
    case MarkDone(t) => MarkKeeps(c, w, t);
    case Tick(d) => TickKeeps(c, w, d);
  }

  // ---- runs ----

  predicate ValidRun(c: Settings, w: World, actions: seq<Action>)
    decreases |actions|
  {
    actions == [] || (Enabled(c, w, actions[0]) && ValidRun(c, Next(c, w, actions[0]), actions[1..]))
  }

  function Run(c: Settings, w: World, actions: seq<Action>): World
    requires ValidRun(c, w, actions)
    decreases |actions|
  {
    if actions == [] then w else Run(c, Next(c, w, actions[0]), actions[1..])
  }

  lemma {:induction false} RunKeeps(c: Settings, w: World, actions: seq<Action>)
    requires Inv(c, w) && c.ttl > 0 && ValidRun(c, w, actions)
    ensures Inv(c, Run(c, w, actions))
    decreases |actions|
  {
    if actions != [] {
      StepKeeps(c, w, actions[0]);
      RunKeeps(c, Next(c, w, actions[0]), actions[1..]);
    }
  }

  /** While no holder loses its lock, nobody is inside together with anybody else. */
  lemma AtMostOneHolder(c: Settings, actions: seq<Action>, a: Token, b: Token)
    requires c.ttl > 0 && ValidRun(c, START, actions)
    ensures var w := Run(c, START, actions);
            && (a in w.holders && b in w.holders ==> a == b)
            && (a in w.holders ==> HeldBy(w.keys, w.now, a))
  {
    RunKeeps(c, START, actions);
  }

  /** On every UTC day at most one refresh completes beyond the limit: a manual one, right after a scheduled one. */
  lemma DailyLimitIsKept(c: Settings, actions: seq<Action>, day: Day)
    requires c.ttl > 0 && ValidRun(c, START, actions)
    ensures var origins := OriginsOn(Run(c, START, actions).marks, day);
            && |origins| <= c.dailyLimit + 1
            && (|origins| > c.dailyLimit ==>
                  && c.allowOverride && |origins| >= 2
                  && origins[|origins| - 1] == Manual && origins[|origins| - 2] == Scheduled)
  {
    RunKeeps(c, START, actions);
    assert DayBounded(c, Run(c, START, actions).marks, day);
  }

  // ---- when locks may be lost ----

  /** One more completion keeps a day within its bound exactly under the guard of the lock script. */
  lemma MarkKeepsBoundIff(c: Settings, w: World, origin: Origin)
    requires DayKeysOk(w, DayOf(w.now)) && DayBounded(c, w.marks, DayOf(w.now))
    ensures DayBounded(c, w.marks + [Mark(DayOf(w.now), origin)], DayOf(w.now)) <==>
              MayStart(c, w.keys, DayOf(w.now), origin)
  {
    OriginsAfterMark(w.marks, Mark(DayOf(w.now), origin), DayOf(w.now));
  }

  /** The processes do what they can; nobody promises that a renewal lands in time. */
  predicate PossibleRun(c: Settings, w: World, actions: seq<Action>)
    decreases |actions|
  {
    actions == [] || (Possible(c, w, actions[0]) && PossibleRun(c, Next(c, w, actions[0]), actions[1..]))
  }

  /** Read off the trace alone: each renewal of the holder comes before its lock expires, and it does not release. */
  predicate RenewsInTime(c: Settings, actions: seq<Action>, now: int, deadline: int, t: Token)
    decreases |actions|
  {
    actions == [] ||
    match actions[0]
    case Tick(d) => now + d < deadline && RenewsInTime(c, actions[1..], now + d, deadline, t)
    case Renew(u) => RenewsInTime(c, actions[1..], now, if u == t then now + c.ttl else deadline, t)
    case Release(u) => u != t && RenewsInTime(c, actions[1..], now, deadline, t)
    case _ => RenewsInTime(c, actions[1..], now, deadline, t)
  }

  /** A lock that is renewed in time is kept against whatever the others acquire, renew or release. */
  lemma {:induction false} RenewedLockIsKept(c: Settings, w: World, actions: seq<Action>, t: Token)
    requires PossibleRun(c, w, actions) && HeldBy(w.keys, w.now, t) && c.ttl > 0
    requires RenewsInTime(c, actions, w.now, w.keys.lock.value.1, t)
    ensures HeldBy(PossibleEnd(c, w, actions).keys, PossibleEnd(c, w, actions).now, t)
    decreases |actions|
  {
    if actions != [] {
      if actions[0].Renew? || actions[0].Release? {
        ForeignTokenIsPowerless(c, w.keys, w.now, actions[0].token);
      }
      RenewedLockIsKept(c, Next(c, w, actions[0]), actions[1..], t);
    }
  }

  function PossibleEnd(c: Settings, w: World, actions: seq<Action>): World
    requires PossibleRun(c, w, actions)
    decreases |actions|
  {
    if actions == [] then w else PossibleEnd(c, Next(c, w, actions[0]), actions[1..])
  }

  /** The token in a lock that has not expired is that of somebody inside. */
  predicate LockIsSomebodys(w: World) {
    w.keys.lock.Some? && w.now < w.keys.lock.value.1 ==> w.keys.lock.value.0 in w.holders
  }

  lemma {:induction false} RunFollowsMarks(c: Settings, w: World, actions: seq<Action>)
    requires PossibleRun(c, w, actions) && AllDayKeysOk(w) && LockIsSomebodys(w)
    ensures AllDayKeysOk(PossibleEnd(c, w, actions)) && LockIsSomebodys(PossibleEnd(c, w, actions))
    decreases |actions|
  {
    if actions != [] {
      DayKeysFollowMarks(c, w, actions[0]);
      RunFollowsMarks(c, Next(c, w, actions[0]), actions[1..]);
    }
  }

  /** Somebody inside still holds the lock. */
  predicate InUse(w: World) {
    exists t | t in w.holders :: w.keys.lock.Some? && w.keys.lock.value.0 == t && w.now < w.keys.lock.value.1
  }

  /** Fewer refreshes than the limit were completed today; or a manual one may follow a scheduled one beyond it. */
  predicate RoomFor(c: Settings, completed: seq<Origin>, origin: Origin) {
    || |completed| < c.dailyLimit
    || (origin == Manual && c.allowOverride && completed != [] && completed[|completed| - 1] == Scheduled)
  }

  /**
   In every run, lost locks or not, an attempt gets in exactly when nobody inside holds the lock and today's
   completed refreshes leave room for it. It then holds the lock for the TTL; otherwise nothing changes.
   */
  lemma AttemptGetsInIff(c: Settings, actions: seq<Action>, origin: Origin)
    requires PossibleRun(c, START, actions)
    ensures var w := PossibleEnd(c, START, actions);
            var w', today := Next(c, w, Acquire(origin)), w.now / 86400;
            && w'.issued == w.issued + 1 && w'.now == w.now && w'.marks == w.marks
            && if !InUse(w) && RoomFor(c, OriginsOn(w.marks, today), origin) then
                 && w'.keys == w.keys.(lock := Some((w.issued, w.now + c.ttl)))
                 && w'.holders == w.holders[w.issued := Holder(origin, today, false, false)]
               else w'.keys == w.keys && w'.holders == w.holders
  {
    RunFollowsMarks(c, START, actions);
    var w := PossibleEnd(c, START, actions);
    assert DayKeysOk(w, w.now / 86400);
  }

  /** The limit holds at every moment of the run. */
  ghost predicate BoundedAlong(c: Settings, w: World, actions: seq<Action>)
    requires PossibleRun(c, w, actions)
    decreases |actions|
  {
    AllDaysBounded(c, w.marks) && (actions == [] || BoundedAlong(c, Next(c, w, actions[0]), actions[1..]))
  }

  /** Whoever marks itself done could start at that moment, the lock apart. */
  predicate LeaveAtEveryMark(c: Settings, w: World, actions: seq<Action>)
    requires PossibleRun(c, w, actions)
    decreases |actions|
  {
    actions == [] ||
    (&& (actions[0].MarkDone? ==> MayStart(c, w.keys, DayOf(w.now), w.holders[actions[0].token].origin))
     && LeaveAtEveryMark(c, Next(c, w, actions[0]), actions[1..]))
  }

  /** The keys of a day summarise its marks, whoever holds the lock. */
  lemma DayKeysFollowMarks(c: Settings, w: World, a: Action)
    requires AllDayKeysOk(w) && Possible(c, w, a)
    ensures AllDayKeysOk(Next(c, w, a))
  {
    var w' := Next(c, w, a);
    forall day
      ensures DayKeysOk(w', day)
    {
      assert DayKeysOk(w, day);
      if a.MarkDone? {
        OriginsAfterMark(w.marks, Mark(DayOf(w.now), w.holders[a.token].origin), day);
      }
    }
  }

  lemma MarkBoundsAllDaysIff(c: Settings, w: World, t: Token)
    requires AllDayKeysOk(w) && AllDaysBounded(c, w.marks) && Possible(c, w, MarkDone(t))
    ensures AllDaysBounded(c, Next(c, w, MarkDone(t)).marks) <==> MayStart(c, w.keys, DayOf(w.now), w.holders[t].origin)
  {
    var today, origin := DayOf(w.now), w.holders[t].origin;
    assert DayKeysOk(w, today) && DayBounded(c, w.marks, today);
    MarkKeepsBoundIff(c, w, origin);
    forall day | day != today
      ensures DayBounded(c, w.marks + [Mark(today, origin)], day)
    {
      assert DayBounded(c, w.marks, day);
      OriginsAfterMark(w.marks, Mark(today, origin), day);
    }
    assert AllDaysBounded(c, Next(c, w, MarkDone(t)).marks) ==> DayBounded(c, w.marks + [Mark(today, origin)], today);
  }

  /** With lost locks the daily limit holds throughout a run if and only if every mark had leave to be made. */
  lemma {:induction false} LimitHoldsAlongIff(c: Settings, w: World, actions: seq<Action>)
    requires AllDayKeysOk(w) && AllDaysBounded(c, w.marks) && PossibleRun(c, w, actions)
    ensures BoundedAlong(c, w, actions) <==> LeaveAtEveryMark(c, w, actions)
    decreases |actions|
  {
    if actions != [] {
      var w' := Next(c, w, actions[0]);
      DayKeysFollowMarks(c, w, actions[0]);
      if actions[0].MarkDone? {
        MarkBoundsAllDaysIff(c, w, actions[0].token);
      }
      if AllDaysBounded(c, w'.marks) {
        LimitHoldsAlongIff(c, w', actions[1..]);
      }
    }
  }

  lemma LimitHoldsFromStartIff(c: Settings, actions: seq<Action>)
    requires PossibleRun(c, START, actions)
    ensures BoundedAlong(c, START, actions) <==> LeaveAtEveryMark(c, START, actions)
  {
    LimitHoldsAlongIff(c, START, actions);
  }

  /**
   A holder that lost its lock counts itself all the same, if its mark comes before its renewal task finds
   out: two manual refreshes on one day, limit one, nothing scheduled.
   */
  lemma LostLockBreaksDailyLimit(c: Settings)
    requires c.dailyLimit == 1 && 0 < c.ttl < SECONDS_PER_DAY
    ensures var first := Next(c, START, Acquire(Manual));
            var lost := Next(c, first, Tick(c.ttl));
            var second := Next(c, lost, Acquire(Manual));
            && !Enabled(c, first, Tick(c.ttl))
            && Possible(c, second, MarkDone(0)) && Possible(c, second, MarkDone(1))
            && !Possible(c, Next(c, second, Renew(0)), MarkDone(0))
            && OriginsOn(Next(c, Next(c, second, MarkDone(0)), MarkDone(1)).marks, 0) == [Manual, Manual]
  {
    var first := Next(c, START, Acquire(Manual));
    var lost := Next(c, first, Tick(c.ttl));
    var second := Next(c, lost, Acquire(Manual));
    assert Acquires(c, lost.keys, lost.now, Manual);
    assert DayOf(second.now) == 0 && second.marks == [];
    TwoMarks(c, second);
  }

  lemma TwoMarks(c: Settings, w: World)
    requires 0 in w.holders && 1 in w.holders && w.marks == [] && DayOf(w.now) == 0
    requires w.holders[0].origin == Manual && w.holders[1].origin == Manual
    ensures OriginsOn(Next(c, Next(c, w, MarkDone(0)), MarkDone(1)).marks, 0) == [Manual, Manual]
  {
    OriginsAfterMark([], Mark(0, Manual), 0);
    assert [] + [Mark(0, Manual)] == [Mark(0, Manual)];
    OriginsAfterMark([Mark(0, Manual)], Mark(0, Manual), 0);
  }

  // ---- Redis ----

  class LockKeys {
    var lock: Option<(Token, int)>
    var counts: map<Day, nat>
    var lastOrigin: map<Day, Origin>

    function View(): Keys
      reads this
    {
      Keys(lock, counts, lastOrigin)
    }

    constructor ()
      ensures View() == START.keys
    {
      lock, counts, lastOrigin := None, map[], map[];
    }

    method AcquireLock(c: Settings, now: int, token: Token, manual: bool) returns (acquired: bool)
      modifies this`lock
      ensures acquired == Acquires(c, old(View()), now, if manual then Manual else Scheduled)
      ensures View() == AfterAcquire(c, old(View()), now, token, if manual then Manual else Scheduled)
    {
      if lock.Some? && now < lock.value.1 {
        return false;
      }
      var today := DayOf(now);
      var count := if today in counts then counts[today] else 0;
      var override := manual && c.allowOverride && today in lastOrigin && lastOrigin[today] == Scheduled;
      if count >= c.dailyLimit && !override {
        return false;
      }
      lock := Some((token, now + c.ttl));
      acquired := true;
    }

    method RenewLock(c: Settings, now: int, token: Token) returns (renewed: bool)
      modifies this`lock
      ensures renewed == HeldBy(old(View()), now, token)
      ensures View() == AfterRenew(c, old(View()), now, token)
    {
      renewed := lock.Some? && now < lock.value.1 && lock.value.0 == token;
      if renewed {
        lock := Some((token, now + c.ttl));
      }
    }

    method ReleaseLock(now: int, token: Token)
      modifies this`lock
      ensures View() == AfterRelease(old(View()), now, token)
    {
      if lock.Some? && now < lock.value.1 && lock.value.0 == token {
        lock := None;
      }
    }

    method MarkFullRefreshDone(now: int, origin: Origin)
      modifies this`counts, this`lastOrigin
      ensures View() == AfterMark(old(View()), now, origin)
    {
      var today := DayOf(now);
      counts := counts[today := CountOn(View(), today) + 1];
      lastOrigin := lastOrigin[today := origin];
    }
  }
}
