/**
 The login limiter: five failures of one client and user within fifteen minutes block that pair for
 fifteen minutes. The check is no reservation, so the bound depends on how many attempts overlap.
 */
module LoginLimiter {
  import opened Options
  import opened Windows

  /** Instants are whole ticks, here milliseconds of the monotonic clock. */
  const LOGIN_FAILURE_WINDOW: Time := 15 * 60 * 1000
  const LOGIN_MAX_FAILURES: nat := 5
  const LOGIN_BLOCK: Time := 15 * 60 * 1000

  datatype Key = Key(clientHost: string, username: string)

  /** What the limiter knows about one key. */
  datatype Record = Record(failures: seq<Time>, blockedUntil: Option<Time>)

  const CLEAN := Record([], None)

  predicate Allowed(r: Record, now: Time) {
    r.blockedUntil.Some? ==> r.blockedUntil.value <= now
  }

  function AfterCheck(r: Record, now: Time): Record {
    if Allowed(r, now) then r.(blockedUntil := None) else r
  }

  function DropOld(failures: seq<Time>, now: Time): seq<Time> {
    if failures != [] && failures[0] <= now - LOGIN_FAILURE_WINDOW then DropOld(failures[1..], now) else failures
  }

  function AfterFailure(r: Record, now: Time): Record {
    var failures := DropOld(r.failures, now) + [now];
    if |failures| >= LOGIN_MAX_FAILURES then Record([], Some(now + LOGIN_BLOCK)) else r.(failures := failures)
  }

  // ---- attempts of one key, interleaved ----

  type Id = nat

  /** An attempt is checked; if allowed, its password is verified meanwhile; then it fails or succeeds. */
  datatype Action = Check(id: Id, at: Time) | Fail(id: Id, at: Time) | Succeed(id: Id, at: Time)

  /** `pending` are the attempts allowed and not decided; `failures` records the failures since the last success. */
  datatype State = State(record: Record, failures: seq<Time>, pending: set<Id>, now: Time)

  function Begin(now: Time): State {
    State(CLEAN, [], {}, now)
  }

  /** The clock never goes back, and at most `overlap` attempts are between check and decision. */
  predicate Enabled(overlap: nat, s: State, a: Action) {
    && s.now <= a.at
    && match a
       case Check(id, at) => id !in s.pending && (Allowed(s.record, at) ==> |s.pending| < overlap)
       case Fail(id, _) => id in s.pending
       case Succeed(id, _) => id in s.pending
  }

  function Next(s: State, a: Action): State {
    match a
    case Check(id, at) =>
      if Allowed(s.record, at) then s.(record := AfterCheck(s.record, at), pending := s.pending + {id}, now := at)
      else s.(now := at)
    case Fail(id, at) => State(AfterFailure(s.record, at), s.failures + [at], s.pending - {id}, at)
    case Succeed(id, at) => State(CLEAN, [], s.pending - {id}, at)
  }

  predicate ValidRun(overlap: nat, s: State, actions: seq<Action>)
    decreases |actions|
  {
    actions == [] || (Enabled(overlap, s, actions[0]) && ValidRun(overlap, Next(s, actions[0]), actions[1..]))
  }

  function Run(s: State, actions: seq<Action>): State
    decreases |actions|
  {
    if actions == [] then s else Run(Next(s, actions[0]), actions[1..])
  }

  // ---- one window, from its start to its end ----

  /** How many failures since the last success fall into the window that starts at `lo`. */
  function InWindow(s: State, lo: Time): nat {
    CountIn(s.failures, lo, LOGIN_FAILURE_WINDOW)
  }

  /** The last `n` failures of the deque are in the window. */
  predicate DequeHolds(failures: seq<Time>, n: nat, lo: Time) {
    n <= |failures| < LOGIN_MAX_FAILURES && forall i | |failures| - n <= i < |failures| :: lo <= failures[i]
  }

  /** A block that outlasts the window: what can still fail in it is what is pending now. */
  predicate Sealed(overlap: nat, s: State, lo: Time) {
    && s.record.blockedUntil.Some?
    && lo + LOGIN_FAILURE_WINDOW <= s.record.blockedUntil.value
    && InWindow(s, lo) + |s.pending| < LOGIN_MAX_FAILURES + overlap
  }

  /** Before its first block the deque counts the window; from then on the window is sealed; later nothing is added. */
  predicate WindowInv(overlap: nat, s: State, lo: Time) {
    && |s.pending| <= overlap
    && |s.record.failures| < LOGIN_MAX_FAILURES
    && (s.now < lo ==> InWindow(s, lo) == 0)
    && (lo <= s.now < lo + LOGIN_FAILURE_WINDOW ==>
         DequeHolds(s.record.failures, InWindow(s, lo), lo) || Sealed(overlap, s, lo))
    && (InWindow(s, lo) == 0 || InWindow(s, lo) < LOGIN_MAX_FAILURES + overlap)
  }

  lemma {:induction false} DropOldKeepsWindow(failures: seq<Time>, n: nat, lo: Time, now: Time)
    requires DequeHolds(failures, n, lo) && now < lo + LOGIN_FAILURE_WINDOW
    ensures DequeHolds(DropOld(failures, now), n, lo)
  {
    if failures != [] && failures[0] <= now - LOGIN_FAILURE_WINDOW {
      DropOldKeepsWindow(failures[1..], n, lo, now);
    }
  }

  lemma {:induction false} DropOldShrinks(failures: seq<Time>, now: Time)
    ensures |DropOld(failures, now)| <= |failures|
  {
    if failures != [] && failures[0] <= now - LOGIN_FAILURE_WINDOW {
      DropOldShrinks(failures[1..], now);
    }
  }

  /** A failure inside a window that has not seen a block: it is counted, or it sets the block that seals the window. */
  lemma FailureInOpenWindow(overlap: nat, s: State, id: Id, at: Time, lo: Time)
    requires WindowInv(overlap, s, lo) && id in s.pending && s.now <= at && lo <= at < lo + LOGIN_FAILURE_WINDOW
    requires DequeHolds(s.record.failures, InWindow(s, lo), lo)
    ensures var s' := Next(s, Fail(id, at));
            DequeHolds(s'.record.failures, InWindow(s', lo), lo) || Sealed(overlap, s', lo)
  {
    DropOldKeepsWindow(s.record.failures, InWindow(s, lo), lo, at);
    assert |s.pending - {id}| == |s.pending| - 1;
  }

  lemma FailureInSealedWindow(overlap: nat, s: State, id: Id, at: Time, lo: Time)
    requires Sealed(overlap, s, lo) && id in s.pending && lo <= at < lo + LOGIN_FAILURE_WINDOW
    ensures Sealed(overlap, Next(s, Fail(id, at)), lo)
  {
    assert |s.pending - {id}| == |s.pending| - 1;
  }

  lemma FailureKeepsWindow(overlap: nat, s: State, id: Id, at: Time, lo: Time)
    requires WindowInv(overlap, s, lo) && Enabled(overlap, s, Fail(id, at))
    ensures WindowInv(overlap, Next(s, Fail(id, at)), lo)
  {
    assert |s.pending - {id}| == |s.pending| - 1;
    if lo <= at < lo + LOGIN_FAILURE_WINDOW {
      if Sealed(overlap, s, lo) {
        FailureInSealedWindow(overlap, s, id, at, lo);
      } else {
        FailureInOpenWindow(overlap, s, id, at, lo);
      }
    }
  }

  lemma StepKeepsWindow(overlap: nat, s: State, a: Action, lo: Time)
    requires WindowInv(overlap, s, lo) && Enabled(overlap, s, a)
    ensures WindowInv(overlap, Next(s, a), lo)
  {
    match a
    case Check(id, at) =>
    case Fail(id, at) => FailureKeepsWindow(overlap, s, id, at, lo);
    case Succeed(_, _) =>
  }

  lemma {:induction false} RunKeepsWindow(overlap: nat, s: State, actions: seq<Action>, lo: Time)
    requires WindowInv(overlap, s, lo) && ValidRun(overlap, s, actions)
    ensures WindowInv(overlap, Run(s, actions), lo)
    decreases |actions|
  {
    if actions != [] {
      StepKeepsWindow(overlap, s, actions[0], lo);
      RunKeepsWindow(overlap, Next(s, actions[0]), actions[1..], lo);
    }
  }

  // ---- the bounds ----

  /**
   With at most `overlap` attempts between check and decision, since the last success every half-open
   window of fifteen minutes holds fewer than five plus `overlap` failures of the key, however often it
   was blocked and unblocked.
   */
  lemma OverlapBoundsFailures(overlap: nat, start: Time, actions: seq<Action>)
    requires overlap >= 1 && ValidRun(overlap, Begin(start), actions)
    ensures WindowBound(Run(Begin(start), actions).failures, 5 + overlap - 1, 900000)
  {
    var s := Run(Begin(start), actions);
    forall lo: Time
      ensures CountIn(s.failures, lo, LOGIN_FAILURE_WINDOW) <= LOGIN_MAX_FAILURES + overlap - 1
    {
      RunKeepsWindow(overlap, Begin(start), actions, lo);
    }
  }

  /** Attempts one at a time: never more than five. */
  lemma FailuresPerWindowAreBounded(start: Time, actions: seq<Action>)
    requires ValidRun(1, Begin(start), actions)
    ensures WindowBound(Run(Begin(start), actions).failures, 5, 900000)
  {
    OverlapBoundsFailures(1, start, actions);
  }

  // ---- nobody is blocked for nothing ----

  /** Five failures since the last success lie within the fifteen minutes that end with the one at `t`. */
  predicate FifthFailure(failures: seq<Time>, t: Time) {
    t in failures && CountIn(failures, t - 900000 + 1, 900000) >= 5
  }

  /** The deque is the end of the failures; a block is due to a fifth one that came fifteen minutes before its end. */
  ghost predicate BlocksAreDue(s: State) {
    IsTail(s.record.failures, s.failures, s.now) && BlockIsDue(s.failures, s.record.blockedUntil)
  }

  ghost predicate IsTail(deque: seq<Time>, failures: seq<Time>, now: Time) {
    && |deque| <= |failures| && deque == failures[|failures| - |deque|..]
    && NonDecreasing(failures) && (forall i | 0 <= i < |failures| :: failures[i] <= now)
  }

  predicate BlockIsDue(failures: seq<Time>, blockedUntil: Option<Time>) {
    blockedUntil.Some? ==> FifthFailure(failures, blockedUntil.value - 900000)
  }

  lemma {:induction false} DropOldIsSuffix(failures: seq<Time>, now: Time)
    ensures |DropOld(failures, now)| <= |failures|
    ensures DropOld(failures, now) == failures[|failures| - |DropOld(failures, now)|..]
    ensures DropOld(failures, now) != [] ==> now - 900000 < DropOld(failures, now)[0]
  {
    if failures != [] && failures[0] <= now - LOGIN_FAILURE_WINDOW {
      DropOldIsSuffix(failures[1..], now);
    }
  }

  lemma {:induction false} RecentAreCounted(failures: seq<Time>, recent: nat, lo: Time, width: Time)
    requires recent <= |failures| && forall i | |failures| - recent <= i < |failures| :: lo <= failures[i] < lo + width
    ensures CountIn(failures, lo, width) >= recent
  {
    if recent > 0 {
      RecentAreCounted(failures[..|failures| - 1], recent - 1, lo, width);
    }
  }

  lemma CountGrows(failures: seq<Time>, at: Time, lo: Time, width: Time)
    ensures CountIn(failures + [at], lo, width) >= CountIn(failures, lo, width)
  {
    assert (failures + [at])[..|failures|] == failures;
  }

  /** The end of the failures that is younger than fifteen minutes, and one more: all lie in one window. */
  lemma RecentInWindow(failures: seq<Time>, recent: seq<Time>, at: Time)
    requires IsTail(recent, failures, at) && (recent != [] ==> at - 900000 < recent[0])
    ensures CountIn(failures + [at], at - 900000 + 1, 900000) >= |recent| + 1
  {
    var grown, start := failures + [at], |failures| - |recent|;
    forall i | start <= i < |grown|
      ensures at - 900000 + 1 <= grown[i] < at + 1
    {
      if i < |failures| {
        assert recent[0] == failures[start] <= failures[i];
      }
    }
    RecentAreCounted(grown, |recent| + 1, at - 900000 + 1, 900000);
  }

  lemma TailGrows(failures: seq<Time>, recent: seq<Time>, at: Time)
    requires IsTail(recent, failures, at)
    ensures IsTail(recent + [at], failures + [at], at) && IsTail([], failures + [at], at)
  {
  }

  lemma DropOldIsTail(deque: seq<Time>, failures: seq<Time>, now: Time, at: Time)
    requires IsTail(deque, failures, now) && now <= at
    ensures IsTail(DropOld(deque, at), failures, at)
    ensures DropOld(deque, at) != [] ==> at - 900000 < DropOld(deque, at)[0]
  {
    DropOldIsSuffix(deque, at);
  }

  lemma FifthStays(failures: seq<Time>, at: Time, blockedUntil: Option<Time>)
    requires BlockIsDue(failures, blockedUntil)
    ensures BlockIsDue(failures + [at], blockedUntil)
  {
    if blockedUntil.Some? {
      CountGrows(failures, at, blockedUntil.value - 900000 - 900000 + 1, 900000);
    }
  }

  lemma BlockAfterFailure(record: Record, failures: seq<Time>, at: Time)
    requires BlockIsDue(failures, record.blockedUntil)
    requires CountIn(failures + [at], at - 900000 + 1, 900000) >= |DropOld(record.failures, at)| + 1
    ensures BlockIsDue(failures + [at], AfterFailure(record, at).blockedUntil)
  {
    var grown := failures + [at];
    FifthStays(failures, at, record.blockedUntil);
    assert at in grown;
  }

  lemma FailureIsDue(s: State, id: Id, at: Time)
    requires BlocksAreDue(s) && s.now <= at
    ensures BlocksAreDue(Next(s, Fail(id, at)))
  {
    var recent := DropOld(s.record.failures, at);
    DropOldIsTail(s.record.failures, s.failures, s.now, at);
    RecentInWindow(s.failures, recent, at);
    BlockAfterFailure(s.record, s.failures, at);
    TailGrows(s.failures, recent, at);
    var record := AfterFailure(s.record, at);
    assert record.failures == [] || record.failures == recent + [at];
  }

  lemma StepBlocksAreDue(overlap: nat, s: State, a: Action)
    requires BlocksAreDue(s) && Enabled(overlap, s, a)
    ensures BlocksAreDue(Next(s, a))
  {
    if a.Fail? {
      FailureIsDue(s, a.id, a.at);
    }
  }

  lemma {:induction false} RunBlocksAreDue(overlap: nat, s: State, actions: seq<Action>)
    requires BlocksAreDue(s) && ValidRun(overlap, s, actions)
    ensures BlocksAreDue(Run(s, actions))
    decreases |actions|
  {
    if actions != [] {
      StepBlocksAreDue(overlap, s, actions[0]);
      RunBlocksAreDue(overlap, Next(s, actions[0]), actions[1..]);
    }
  }

  /**
   In every run an attempt is refused only within fifteen minutes after a failure that was the fifth, since the last
   success, in the fifteen minutes it ended.
   */
  lemma RefusedOnlyAfterFive(overlap: nat, start: Time, actions: seq<Action>, now: Time)
    requires ValidRun(overlap, Begin(start), actions)
    ensures var s := Run(Begin(start), actions);
            !Allowed(s.record, now) ==> exists t :: FifthFailure(s.failures, t) && now < t + 900000
  {
    RunBlocksAreDue(overlap, Begin(start), actions);
    var s := Run(Begin(start), actions);
    if !Allowed(s.record, now) {
      assert FifthFailure(s.failures, s.record.blockedUntil.value - 900000);
    }
  }

  // ---- the bound is attained ----

  ghost predicate Reachable(overlap: nat, start: Time, s: State) {
    exists actions :: ValidRun(overlap, Begin(start), actions) && Run(Begin(start), actions) == s
  }

  lemma {:induction false} RunThen(overlap: nat, s: State, actions: seq<Action>, a: Action)
    requires ValidRun(overlap, s, actions) && Enabled(overlap, Run(s, actions), a)
    ensures ValidRun(overlap, s, actions + [a]) && Run(s, actions + [a]) == Next(Run(s, actions), a)
    decreases |actions|
  {
    if actions == [] {
      assert (actions + [a])[1..] == [];
    } else {
      assert (actions + [a])[1..] == actions[1..] + [a];
      RunThen(overlap, Next(s, actions[0]), actions[1..], a);
    }
  }

  lemma ReachableNext(overlap: nat, start: Time, s: State, a: Action)
    requires Reachable(overlap, start, s) && Enabled(overlap, s, a)
    ensures Reachable(overlap, start, Next(s, a))
  {
    var actions :| ValidRun(overlap, Begin(start), actions) && Run(Begin(start), actions) == s;
    RunThen(overlap, Begin(start), actions, a);
  }

  /** Up to four failures, one after the other, at one instant: nothing is blocked yet. */
  lemma {:induction false} FourFailures(overlap: nat, start: Time, n: nat) returns (s: State)
    requires overlap >= 1 && n < LOGIN_MAX_FAILURES
    ensures Reachable(overlap, start, s) && s.now == start && s.pending == {}
    ensures s.record.blockedUntil == None && |s.record.failures| <= n && InWindow(s, start) == n
  {
    if n == 0 {
      s := Begin(start);
      assert ValidRun(overlap, s, []) && Run(s, []) == s;
    } else {
      var before := FourFailures(overlap, start, n - 1);
      ReachableNext(overlap, start, before, Check(0, start));
      var checked := Next(before, Check(0, start));
      ReachableNext(overlap, start, checked, Fail(0, start));
      s := Next(checked, Fail(0, start));
      DropOldShrinks(before.record.failures, start);
    }
  }

  function Ids(n: nat): (ids: set<Id>)
    ensures |ids| == n && forall i: Id :: i in ids <==> i < n
  {
    if n == 0 then {} else Ids(n - 1) + {n - 1}
  }

  /** Then as many attempts as may overlap are checked: all are allowed. */
  lemma {:induction false} ChecksAllowed(overlap: nat, start: Time, n: nat) returns (s: State)
    requires 1 <= overlap && n <= overlap
    ensures Reachable(overlap, start, s) && s.now == start && s.pending == Ids(n)
    ensures s.record.blockedUntil == None && InWindow(s, start) == LOGIN_MAX_FAILURES - 1
  {
    if n == 0 {
      s := FourFailures(overlap, start, LOGIN_MAX_FAILURES - 1);
    } else {
      var before := ChecksAllowed(overlap, start, n - 1);
      ReachableNext(overlap, start, before, Check(n - 1, start));
      s := Next(before, Check(n - 1, start));
    }
  }

  /** And all of them fail, the block notwithstanding. */
  lemma {:induction false} ChecksFail(overlap: nat, start: Time, n: nat) returns (s: State)
    requires 1 <= overlap && n <= overlap
    ensures Reachable(overlap, start, s) && s.now == start && s.pending == Ids(overlap - n)
    ensures InWindow(s, start) == LOGIN_MAX_FAILURES - 1 + n
  {
    if n == 0 {
      s := ChecksAllowed(overlap, start, overlap);
    } else {
      var id := overlap - n;
      var before := ChecksFail(overlap, start, n - 1);
      ReachableNext(overlap, start, before, Fail(id, start));
      s := Next(before, Fail(id, start));
      assert Ids(id + 1) - {id} == Ids(id);
    }
  }

  /** The bound for overlapping attempts is exact: some run reaches it. */
  lemma OverlapBoundIsReached(overlap: nat, start: Time) returns (s: State)
    requires overlap >= 1
    ensures Reachable(overlap, start, s) && InWindow(s, start) == LOGIN_MAX_FAILURES + overlap - 1
  {
    s := ChecksFail(overlap, start, overlap);
  }

  /** Five failures a window hold for every run if and only if attempts of a key never overlap. */
  lemma BoundOfFiveIff(overlap: nat, start: Time)
    ensures (forall s | Reachable(overlap, start, s) :: WindowBound(s.failures, 5, 900000)) <==> overlap <= 1
  {
    if overlap <= 1 {
      forall s | Reachable(overlap, start, s)
        ensures WindowBound(s.failures, LOGIN_MAX_FAILURES, LOGIN_FAILURE_WINDOW)
      {
        var actions :| ValidRun(overlap, Begin(start), actions) && Run(Begin(start), actions) == s;
        forall lo: Time
          ensures CountIn(s.failures, lo, LOGIN_FAILURE_WINDOW) <= LOGIN_MAX_FAILURES
        {
          RunKeepsWindow(overlap, Begin(start), actions, lo);
        }
      }
    } else {
      var s := OverlapBoundIsReached(overlap, start);
      assert CountIn(s.failures, start, LOGIN_FAILURE_WINDOW) > LOGIN_MAX_FAILURES;
    }
  }

  // ---- the module-level dictionaries ----

  class Limiter {
    var failures: map<Key, seq<Time>>
    var blockedUntil: map<Key, Time>

    function RecordOf(key: Key): Record
      reads this
    {
      Record(if key in failures then failures[key] else [],
             if key in blockedUntil then Some(blockedUntil[key]) else None)
    }

    constructor ()
      ensures forall key :: RecordOf(key) == CLEAN
    {
      failures, blockedUntil := map[], map[];
    }

    method IsLoginAttemptAllowed(key: Key, now: Time) returns (allowed: bool)
      modifies this
      ensures allowed == Allowed(old(RecordOf(key)), now)
      ensures RecordOf(key) == AfterCheck(old(RecordOf(key)), now)
      ensures forall other | other != key :: RecordOf(other) == old(RecordOf(other))
    {
      if key in blockedUntil {
        if blockedUntil[key] > now {
          return false;
        }
        blockedUntil := blockedUntil - {key};
      }
      allowed := true;
    }

    method RecordFailedLoginAttempt(key: Key, now: Time)
      modifies this
      ensures RecordOf(key) == AfterFailure(old(RecordOf(key)), now)
      ensures forall other | other != key :: RecordOf(other) == old(RecordOf(other))
    {
      var recent := if key in failures then failures[key] else [];
      while recent != [] && recent[0] <= now - LOGIN_FAILURE_WINDOW
        invariant DropOld(recent, now) == DropOld(old(RecordOf(key)).failures, now)
        decreases |recent|
      {
        recent := recent[1..];
      }
      recent := recent + [now];
      failures := failures[key := recent];
      if |recent| >= LOGIN_MAX_FAILURES {
        blockedUntil := blockedUntil[key := now + LOGIN_BLOCK];
        failures := failures - {key};
      }
    }

    method ClearFailedLoginAttempts(key: Key)
      modifies this
      ensures RecordOf(key) == CLEAN
      ensures forall other | other != key :: RecordOf(other) == old(RecordOf(other))
    {
      failures := failures - {key};
      blockedUntil := blockedUntil - {key};
    }
  }
}
