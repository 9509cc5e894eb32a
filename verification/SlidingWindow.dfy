/** The sliding-window limiters: the Redis script over a sorted set, and the list kept in memory. */
module SlidingWindow {
  import opened Windows

  /** Instants are whole ticks, here milliseconds. */
  const ONE_SECOND: Time := 1000

  /** What the purge leaves: ZREMRANGEBYSCORE 0 .. now - width, or the list comprehension. */
  function Kept(entries: seq<Time>, now: Time, width: Time): seq<Time> {
    if entries == [] then []
    else
      var last := entries[|entries| - 1];
      Kept(entries[..|entries| - 1], now, width) + (if now - width < last then [last] else [])
  }

  predicate Grants(entries: seq<Time>, now: Time, limit: nat, width: Time) {
    |Kept(entries, now, width)| < limit
  }

  function AfterAttempt(entries: seq<Time>, now: Time, limit: nat, width: Time): seq<Time> {
    Kept(entries, now, width) + (if Grants(entries, now, limit, width) then [now] else [])
  }

  // ---- the entries are the recent end of the history ----

  lemma LastOfSuffix(entries: seq<Time>, cut: nat, t: Time)
    requires entries != [] && NonDecreasing(entries)
    requires cut == Below(entries[..|entries| - 1], t + 1)
    ensures cut < |entries|
    ensures var front, last := entries[..|entries| - 1], entries[|entries| - 1];
            if t < last then entries[cut..] == front[cut..] + [last] else front[cut..] == [] && cut == |front|
  {
    BelowIsCut(entries[..|entries| - 1], t + 1);
  }

  /** For an ordered list the purge cuts off the entries that are a window old. */
  lemma {:induction false} KeptIsSuffix(entries: seq<Time>, now: Time, width: Time)
    requires NonDecreasing(entries)
    ensures Below(entries, now - width + 1) <= |entries|
    ensures Kept(entries, now, width) == entries[Below(entries, now - width + 1)..]
  {
    if entries != [] {
      var front := entries[..|entries| - 1];
      KeptIsSuffix(front, now, width);
      LastOfSuffix(entries, Below(front, now - width + 1), now - width);
    }
  }

  /** `entries` are the latest grants of `history`, all the others are a window old at `asOf`. */
  ghost predicate Tracks(entries: seq<Time>, history: seq<Time>, asOf: Time, limit: nat, width: Time) {
    && |entries| <= |history| && entries == history[|history| - |entries|..]
    && NonDecreasing(history) && OldUntil(history, |history|, asOf)
    && OldUntil(history, |history| - |entries|, asOf - width)
    && Spaced(history, limit, width)
  }

  lemma KeptOfHistory(entries: seq<Time>, history: seq<Time>, now: Time, width: Time)
    requires |entries| <= |history| && entries == history[|history| - |entries|..] && NonDecreasing(entries)
    ensures Below(entries, now - width + 1) <= |entries|
    ensures Kept(entries, now, width) == history[|history| - |entries| + Below(entries, now - width + 1)..]
  {
    KeptIsSuffix(entries, now, width);
    var start := |history| - |entries|;
  }

  /** The cut of the recent end of a history, as a cut of the history. */
  lemma CutOfSuffix(entries: seq<Time>, history: seq<Time>, t: Time)
    requires |entries| <= |history| && entries == history[|history| - |entries|..] && NonDecreasing(entries)
    ensures Below(entries, t + 1) <= |entries|
    ensures forall i | |history| - |entries| <= i < |history| ::
              history[i] <= t <==> i < |history| - |entries| + Below(entries, t + 1)
  {
    var start := |history| - |entries|;
    BelowIsCut(entries, t + 1);
    forall i | start <= i < |history|
      ensures history[i] <= t <==> i < start + Below(entries, t + 1)
    {
      assert history[i] == entries[i - start];
    }
  }

  /** The purge cuts the history where it becomes younger than a window. */
  lemma PurgeIsCut(entries: seq<Time>, history: seq<Time>, now: Time, width: Time) returns (cut: nat)
    requires |entries| <= |history| && entries == history[|history| - |entries|..] && NonDecreasing(entries)
    ensures |history| - |entries| <= cut <= |history| && Kept(entries, now, width) == history[cut..]
    ensures forall i | |history| - |entries| <= i < |history| :: history[i] <= now - width <==> i < cut
  {
    KeptOfHistory(entries, history, now, width);
    CutOfSuffix(entries, history, now - width);
    cut := |history| - |entries| + Below(entries, now - width + 1);
  }

  lemma OldUntilCut(history: seq<Time>, start: nat, cut: nat, asOf: Time, now: Time, width: Time)
    requires start <= cut <= |history| && asOf <= now && OldUntil(history, start, asOf - width)
    requires forall i | start <= i < |history| :: history[i] <= now - width <==> i < cut
    ensures OldUntil(history, cut, now - width)
    ensures forall i | cut <= i < |history| :: now - width < history[i]
  {
  }

  /** `kept` is the end of the history that is less than a window old. */
  ghost predicate IsRecentEnd(kept: seq<Time>, history: seq<Time>, now: Time, width: Time) {
    && |kept| <= |history| && kept == history[|history| - |kept|..]
    && OldUntil(history, |history| - |kept|, now - width)
    && forall i | |history| - |kept| <= i < |history| :: now - width < history[i]
  }

  lemma CutIsRecentEnd(kept: seq<Time>, history: seq<Time>, start: nat, cut: nat, asOf: Time, now: Time, width: Time)
    requires start <= cut <= |history| && kept == history[cut..]
    requires asOf <= now && OldUntil(history, start, asOf - width)
    requires forall i | start <= i < |history| :: history[i] <= now - width <==> i < cut
    ensures IsRecentEnd(kept, history, now, width)
  {
    OldUntilCut(history, start, cut, asOf, now, width);
    assert |history| - |kept| == cut;
  }

  /** What the purge removes is a window old by now. */
  lemma DroppedAreOld(entries: seq<Time>, history: seq<Time>, asOf: Time, now: Time, limit: nat, width: Time)
    requires Tracks(entries, history, asOf, limit, width) && asOf <= now
    ensures IsRecentEnd(Kept(entries, now, width), history, now, width)
  {
    var cut := PurgeIsCut(entries, history, now, width);
    CutIsRecentEnd(Kept(entries, now, width), history, |history| - |entries|, cut, asOf, now, width);
  }

  function Grown(entries: seq<Time>, history: seq<Time>, now: Time, limit: nat, width: Time): seq<Time> {
    if Grants(entries, now, limit, width) then history + [now] else history
  }

  lemma AttemptKeepsTrack(entries: seq<Time>, history: seq<Time>, asOf: Time, now: Time, limit: nat, width: Time)
    requires Tracks(entries, history, asOf, limit, width) && asOf <= now
    ensures Tracks(
              AfterAttempt(entries, now, limit, width), Grown(entries, history, now, limit, width), now, limit, width)
  {
    DroppedAreOld(entries, history, asOf, now, limit, width);
    var kept := Kept(entries, now, width);
    if Grants(entries, now, limit, width) {
      GrantTracks(kept, history, asOf, now, limit, width);
    } else {
      assert AfterAttempt(entries, now, limit, width) == kept;
    }
  }

  lemma GrantTracks(kept: seq<Time>, history: seq<Time>, asOf: Time, now: Time, limit: nat, width: Time)
    requires |kept| <= |history| && kept == history[|history| - |kept|..] && |kept| < limit && asOf <= now
    requires NonDecreasing(history) && OldUntil(history, |history|, asOf) && Spaced(history, limit, width)
    requires OldUntil(history, |history| - |kept|, now - width)
    ensures Tracks(kept + [now], history + [now], now, limit, width)
  {
    SpacedGrowsIff(history, now, limit, width);
  }

  /** The grants a limiter object has recorded are within the limit in every half-open window. */
  lemma HistoryIsBounded(entries: seq<Time>, history: seq<Time>, asOf: Time, limit: nat, width: Time)
    requires Tracks(entries, history, asOf, limit, width) && width > 0
    ensures WindowBound(history, limit, width)
  {
    SpacedIffWindowBound(history, limit, width);
  }

  /** Nobody is refused for nothing: a refusal means that the `limit` latest grants are less than a window old. */
  lemma RefusedOnlyWhenFull(entries: seq<Time>, history: seq<Time>, asOf: Time, now: Time, limit: nat, width: Time)
    requires Tracks(entries, history, asOf, limit, width) && asOf <= now && limit > 0
    ensures Grants(entries, now, limit, width) <==> |history| < limit || history[|history| - limit] <= now - width
  {
    DroppedAreOld(entries, history, asOf, now, limit, width);
  }

  lemma KeptSnoc(entries: seq<Time>, last: Time, now: Time, width: Time)
    ensures Kept(entries + [last], now, width)
            == Kept(entries, now, width) + (if now - width < last then [last] else [])
  {
    assert (entries + [last])[..|entries|] == entries;
  }

  // ---- the key in Redis, which expires ----

  /** PEXPIRE on a grant: the key goes a window and this much later, by the clock of the server. */
  const KEY_GRACE: Time := 1000

  /** One evaluation of the script: the clock its caller has read, and the clock of the server. */
  datatype Attempt = Attempt(now: Time, server: Time)

  /** The sorted set, and the instant at which it expires. */
  datatype Key = Key(entries: seq<Time>, expiry: Time)

  const NO_KEY: Key := Key([], 0)

  function Seen(key: Key, server: Time): seq<Time> {
    if key.expiry <= server then [] else key.entries
  }

  predicate GrantsOn(key: Key, a: Attempt, limit: nat, width: Time) {
    Grants(Seen(key, a.server), a.now, limit, width)
  }

  function KeyAfter(key: Key, a: Attempt, limit: nat, width: Time): Key {
    Key(AfterAttempt(Seen(key, a.server), a.now, limit, width),
        if GrantsOn(key, a, limit, width) then a.server + width + KEY_GRACE else key.expiry)
  }

  /** The key after a list of attempts by any callers. */
  function Left(attempts: seq<Attempt>, limit: nat, width: Time): Key {
    if attempts == [] then NO_KEY
    else KeyAfter(Left(attempts[..|attempts| - 1], limit, width), attempts[|attempts| - 1], limit, width)
  }

  /** The readings that were granted. */
  function Granted(attempts: seq<Attempt>, limit: nat, width: Time): seq<Time> {
    if attempts == [] then []
    else
      var front, a := attempts[..|attempts| - 1], attempts[|attempts| - 1];
      Granted(front, limit, width) + (if GrantsOn(Left(front, limit, width), a, limit, width) then [a.now] else [])
  }

  lemma OneMore(attempts: seq<Attempt>, a: Attempt, limit: nat, width: Time)
    ensures Left(attempts + [a], limit, width) == KeyAfter(Left(attempts, limit, width), a, limit, width)
    ensures Granted(attempts + [a], limit, width)
            == Granted(attempts, limit, width)
               + (if GrantsOn(Left(attempts, limit, width), a, limit, width) then [a.now] else [])
  {
    assert (attempts + [a])[..|attempts|] == attempts;
  }

  /** The server evaluates one script after the other, and is ahead of every reading by `low` to `high`. */
  ghost predicate OnServer(attempts: seq<Attempt>, low: Time, high: Time) {
    && (forall i, j | 0 <= i < j < |attempts| :: attempts[i].server <= attempts[j].server)
    && (forall i | 0 <= i < |attempts| ::
          0 <= attempts[i].now && low <= attempts[i].server - attempts[i].now <= high)
  }

  ghost predicate ReadInOrder(attempts: seq<Attempt>) {
    forall i, j | 0 <= i < j < |attempts| :: attempts[i].now <= attempts[j].now
  }

  // ---- while no reading is too far behind, expiry takes nothing that counts ----

  /** The entries were granted by the server time `asOf`, and the expiry counts from the last of them. */
  ghost predicate Fresh(key: Key, asOf: Time, low: Time, width: Time) {
    key.entries != [] ==>
      && key.expiry <= asOf + width + KEY_GRACE
      && forall i | 0 <= i < |key.entries| :: key.entries[i] + low + width + KEY_GRACE <= key.expiry
  }

  lemma {:induction false} NoneKept(entries: seq<Time>, now: Time, width: Time)
    requires forall i | 0 <= i < |entries| :: entries[i] <= now - width
    ensures Kept(entries, now, width) == []
  {
    if entries != [] {
      NoneKept(entries[..|entries| - 1], now, width);
    }
  }

  /** What expires would have been purged anyway. */
  lemma ExpiredWereOld(key: Key, asOf: Time, a: Attempt, low: Time, high: Time, width: Time)
    requires Fresh(key, asOf, low, width) && a.server - a.now <= high && high - low <= KEY_GRACE
    ensures Kept(Seen(key, a.server), a.now, width) == Kept(key.entries, a.now, width)
  {
    if key.expiry <= a.server {
      NoneKept(key.entries, a.now, width);
    }
  }

  lemma {:induction false} KeptAreEntries(entries: seq<Time>, now: Time, width: Time, top: Time)
    requires forall i | 0 <= i < |entries| :: entries[i] <= top
    ensures forall i | 0 <= i < |Kept(entries, now, width)| :: Kept(entries, now, width)[i] <= top
  {
    if entries != [] {
      KeptAreEntries(entries[..|entries| - 1], now, width, top);
    }
  }

  lemma AttemptKeepsFresh(key: Key, asOf: Time, a: Attempt, low: Time, limit: nat, width: Time)
    requires Fresh(key, asOf, low, width) && asOf <= a.server && low <= a.server - a.now
    ensures Fresh(KeyAfter(key, a, limit, width), a.server, low, width)
  {
    KeptAreEntries(Seen(key, a.server), a.now, width, key.expiry - low - width - KEY_GRACE);
  }

  // ---- readings in order ----

  ghost predicate SteadyAt(key: Key, granted: seq<Time>, last: Attempt, low: Time, limit: nat, width: Time) {
    Fresh(key, last.server, low, width) && Tracks(key.entries, granted, last.now, limit, width)
  }

  /** What holds after each attempt, if the readings are in order and none is too far behind. */
  ghost predicate Steady(attempts: seq<Attempt>, low: Time, limit: nat, width: Time) {
    var key, granted := Left(attempts, limit, width), Granted(attempts, limit, width);
    if attempts == [] then key == NO_KEY && granted == []
    else SteadyAt(key, granted, attempts[|attempts| - 1], low, limit, width)
  }

  /** A step of the key and of the grants, seen from any state. */
  lemma KeyStep(key: Key, granted: seq<Time>, asOf: Attempt, a: Attempt, low: Time, high: Time,
                limit: nat, width: Time)
    requires SteadyAt(key, granted, asOf, low, limit, width)
    requires high - low <= KEY_GRACE && low <= a.server - a.now <= high
    requires asOf.server <= a.server && asOf.now <= a.now
    ensures SteadyAt(KeyAfter(key, a, limit, width),
                     granted + (if GrantsOn(key, a, limit, width) then [a.now] else []), a, low, limit, width)
  {
    assert granted + [] == granted;
    AttemptKeepsFresh(key, asOf.server, a, low, limit, width);
    ExpiredWereOld(key, asOf.server, a, low, high, width);
    AttemptKeepsTrack(key.entries, granted, asOf.now, a.now, limit, width);
  }

  lemma SteadyStep(front: seq<Attempt>, a: Attempt, low: Time, high: Time, limit: nat, width: Time)
    requires Steady(front, low, limit, width) && high - low <= KEY_GRACE && low <= a.server - a.now <= high
    requires front != [] ==> front[|front| - 1].server <= a.server && front[|front| - 1].now <= a.now
    ensures Steady(front + [a], low, limit, width)
  {
    var key, granted := Left(front, limit, width), Granted(front, limit, width);
    var asOf := if front == [] then a else front[|front| - 1];
    OneMore(front, a, limit, width);
    KeyStep(key, granted, asOf, a, low, high, limit, width);
  }

  lemma {:induction false} OrderedIsSteady(attempts: seq<Attempt>, low: Time, high: Time, limit: nat, width: Time)
    requires OnServer(attempts, low, high) && ReadInOrder(attempts) && high - low <= KEY_GRACE
    ensures Steady(attempts, low, limit, width)
  {
    if attempts != [] {
      var front := attempts[..|attempts| - 1];
      OrderedIsSteady(front, low, high, limit, width);
      SteadyStep(front, attempts[|attempts| - 1], low, high, limit, width);
      assert front + [attempts[|attempts| - 1]] == attempts;
    }
  }

  /** With readings in order, none more than a second further behind the server than another, whoever asks. */
  lemma EveryWindowIsBounded(attempts: seq<Attempt>, low: Time, high: Time, limit: nat, width: Time)
    requires OnServer(attempts, low, high) && ReadInOrder(attempts) && high - low <= 1000 && width > 0
    ensures WindowBound(Granted(attempts, limit, width), limit, width)
  {
    OrderedIsSteady(attempts, low, high, limit, width);
    SpacedIffWindowBound(Granted(attempts, limit, width), limit, width);
  }

  // ---- limit one ----

  ghost predicate HoldsLast(key: Key, granted: seq<Time>, asOf: Time, low: Time, width: Time) {
    && Fresh(key, asOf, low, width)
    && granted != [] && key.entries == [granted[|granted| - 1]]
    && NonDecreasing(granted) && Spaced(granted, 1, width)
  }

  /** With limit one the set holds the last grant, and the grants are a window apart, whatever the readings do. */
  ghost predicate OneAtATime(attempts: seq<Attempt>, low: Time, width: Time) {
    var key, granted := Left(attempts, 1, width), Granted(attempts, 1, width);
    if attempts == [] then key == NO_KEY && granted == []
    else HoldsLast(key, granted, attempts[|attempts| - 1].server, low, width)
  }

  lemma OneKept(last: Time, now: Time, width: Time)
    ensures Kept([last], now, width) == if now - width < last then [last] else []
  {
    KeptSnoc([], last, now, width);
    assert [] + [last] == [last];
  }

  lemma OneMoreApart(granted: seq<Time>, now: Time, width: Time)
    requires NonDecreasing(granted) && Spaced(granted, 1, width) && width > 0
    requires granted != [] ==> granted[|granted| - 1] + width <= now
    ensures NonDecreasing(granted + [now]) && Spaced(granted + [now], 1, width)
  {
    SpacedGrowsIff(granted, now, 1, width);
  }

  lemma FirstIsHeld(a: Attempt, low: Time, width: Time)
    requires low <= a.server - a.now && width > 0
    ensures GrantsOn(NO_KEY, a, 1, width)
    ensures HoldsLast(KeyAfter(NO_KEY, a, 1, width), [] + [a.now], a.server, low, width)
  {
    assert [] + [a.now] == [a.now];
  }

  lemma NextIsHeld(key: Key, granted: seq<Time>, asOf: Time, a: Attempt, low: Time, high: Time, width: Time)
    requires HoldsLast(key, granted, asOf, low, width) && asOf <= a.server && width > 0
    requires high - low <= KEY_GRACE && low <= a.server - a.now <= high
    ensures HoldsLast(KeyAfter(key, a, 1, width), granted + (if GrantsOn(key, a, 1, width) then [a.now] else []),
                      a.server, low, width)
  {
    AttemptKeepsFresh(key, asOf, a, low, 1, width);
    ExpiredWereOld(key, asOf, a, low, high, width);
    OneKept(granted[|granted| - 1], a.now, width);
    if GrantsOn(key, a, 1, width) {
      OneMoreApart(granted, a.now, width);
      assert [] + [a.now] == [a.now];
    } else {
      assert granted + [] == granted && key.entries + [] == key.entries;
    }
  }

  lemma OneAtATimeStep(front: seq<Attempt>, a: Attempt, low: Time, high: Time, width: Time)
    requires OneAtATime(front, low, width) && high - low <= KEY_GRACE && low <= a.server - a.now <= high && width > 0
    requires front != [] ==> front[|front| - 1].server <= a.server
    ensures OneAtATime(front + [a], low, width)
  {
    OneMore(front, a, 1, width);
    if front == [] {
      FirstIsHeld(a, low, width);
    } else {
      NextIsHeld(Left(front, 1, width), Granted(front, 1, width), front[|front| - 1].server, a, low, high, width);
    }
  }

  lemma {:induction false} LimitOneIsBounded(attempts: seq<Attempt>, low: Time, high: Time, width: Time)
    requires OnServer(attempts, low, high) && high - low <= KEY_GRACE && width > 0
    ensures OneAtATime(attempts, low, width)
  {
    if attempts != [] {
      var front := attempts[..|attempts| - 1];
      LimitOneIsBounded(front, low, high, width);
      OneAtATimeStep(front, attempts[|attempts| - 1], low, high, width);
      assert front + [attempts[|attempts| - 1]] == attempts;
    }
  }

  // ---- runs that break the bound ----

  /** `n` readings of zero. */
  function Zeros(n: nat): seq<Time> {
    seq(n, _ => 0)
  }

  /** The attempts that make them, `low` behind the server. */
  function AtZero(n: nat, low: Time): seq<Attempt> {
    seq(n, _ => Attempt(0, low))
  }

  lemma ZeroStep(n: nat, low: Time)
    requires n > 0
    ensures AtZero(n, low) == AtZero(n - 1, low) + [Attempt(0, low)] && Zeros(n) == Zeros(n - 1) + [0]
  {
  }

  lemma {:induction false} KeptZeros(n: nat, now: Time, width: Time)
    ensures Kept(Zeros(n), now, width) == if now < width then Zeros(n) else []
  {
    if n > 0 {
      ZeroStep(n, 0);
      KeptZeros(n - 1, now, width);
      KeptSnoc(Zeros(n - 1), 0, now, width);
    }
  }

  lemma {:induction false} ZerosInWindow(n: nat, width: Time)
    requires width > 0
    ensures CountIn(Zeros(n), 0, width) == n
  {
    if n > 0 {
      ZeroStep(n, 0);
      ZerosInWindow(n - 1, width);
      assert Zeros(n)[..n - 1] == Zeros(n - 1);
    }
  }

  lemma GrantStep(front: seq<Attempt>, key: Key, a: Attempt, kept: seq<Time>, limit: nat, width: Time)
    requires Left(front, limit, width) == key
    requires Kept(Seen(key, a.server), a.now, width) == kept && |kept| < limit
    ensures Left(front + [a], limit, width) == Key(kept + [a.now], a.server + width + KEY_GRACE)
    ensures Granted(front + [a], limit, width) == Granted(front, limit, width) + [a.now]
  {
    OneMore(front, a, limit, width);
  }

  /** One more reading of zero at the same instant of the server. */
  lemma SameInstantIsGranted(n: nat, low: Time, limit: nat, width: Time)
    requires 0 < n <= limit && width > 0 && Kept(Zeros(n - 1), 0, width) == Zeros(n - 1)
    requires Left(AtZero(n - 1, low), limit, width)
             == if n == 1 then NO_KEY else Key(Zeros(n - 1), low + width + KEY_GRACE)
    ensures Granted(AtZero(n - 1, low) + [Attempt(0, low)], limit, width)
            == Granted(AtZero(n - 1, low), limit, width) + [0]
    ensures Left(AtZero(n - 1, low) + [Attempt(0, low)], limit, width)
            == Key(Zeros(n - 1) + [0], low + width + KEY_GRACE)
  {
    var key := if n == 1 then NO_KEY else Key(Zeros(n - 1), low + width + KEY_GRACE);
    assert Seen(key, low) == Zeros(n - 1);
    GrantStep(AtZero(n - 1, low), key, Attempt(0, low), Zeros(n - 1), limit, width);
  }

  lemma {:induction false} ZerosAreGranted(n: nat, low: Time, limit: nat, width: Time)
    requires n <= limit && width > 0
    ensures Granted(AtZero(n, low), limit, width) == Zeros(n)
    ensures Left(AtZero(n, low), limit, width) == if n == 0 then NO_KEY else Key(Zeros(n), low + width + KEY_GRACE)
  {
    if n > 0 {
      ZerosAreGranted(n - 1, low, limit, width);
      ZeroStep(n, low);
      KeptZeros(n - 1, 0, width);
      SameInstantIsGranted(n, low, limit, width);
    }
  }

  lemma CountSnoc(h: seq<Time>, last: Time, lo: Time, width: Time)
    ensures CountIn(h + [last], lo, width) == CountIn(h, lo, width) + (if lo <= last < lo + width then 1 else 0)
  {
    assert (h + [last])[..|h|] == h;
  }

  function LateRun(low: Time, limit: nat, width: Time): seq<Attempt> {
    AtZero(limit, low) + [Attempt(width - 1, low + width + KEY_GRACE)]
  }

  lemma LateRunOnServer(low: Time, limit: nat, width: Time)
    requires width > 0
    ensures OnServer(LateRun(low, limit, width), low, low + KEY_GRACE + 1) && ReadInOrder(LateRun(low, limit, width))
  {
  }

  /** An expired key grants whatever it held. */
  lemma ExpiredKeyGrants(front: seq<Attempt>, a: Attempt, limit: nat, width: Time)
    requires limit >= 1 && Left(front, limit, width).expiry <= a.server
    ensures Granted(front + [a], limit, width) == Granted(front, limit, width) + [a.now]
  {
    OneMore(front, a, limit, width);
  }

  /** `limit` grants at zero, and one more before the window is over. */
  lemma OneTooMany(limit: nat, width: Time, now: Time)
    requires 0 <= now < width
    ensures !WindowBound(Zeros(limit) + [now], limit, width)
    ensures !WindowBound(Zeros(limit) + [width] + [now], limit, width)
  {
    ZerosInWindow(limit, width);
    CountSnoc(Zeros(limit), now, 0, width);
    assert CountIn(Zeros(limit) + [now], 0, width) > limit;
    CountSnoc(Zeros(limit), width, 0, width);
    CountSnoc(Zeros(limit) + [width], now, 0, width);
    assert CountIn(Zeros(limit) + [width] + [now], 0, width) > limit;
  }

  /** `limit` grants at zero; and when the key has expired, a caller a tick too far behind reads `width - 1`. */
  lemma LateReadingIsGranted(low: Time, limit: nat, width: Time)
    requires limit >= 1 && width > 0
    ensures Granted(LateRun(low, limit, width), limit, width) == Zeros(limit) + [width - 1]
  {
    ZerosAreGranted(limit, low, limit, width);
    ExpiredKeyGrants(AtZero(limit, low), Attempt(width - 1, low + width + KEY_GRACE), limit, width);
  }

  lemma LateReadingBreaksBound(low: Time, limit: nat, width: Time)
    requires limit >= 1 && width > 0
    ensures OnServer(LateRun(low, limit, width), low, low + 1001) && ReadInOrder(LateRun(low, limit, width))
    ensures !WindowBound(Granted(LateRun(low, limit, width), limit, width), limit, width)
  {
    LateRunOnServer(low, limit, width);
    LateReadingIsGranted(low, limit, width);
    OneTooMany(limit, width, width - 1);
  }

  /** A key that has not expired and keeps all its entries grants while it has room. */
  lemma FreshKeyGrants(front: seq<Attempt>, key: Key, a: Attempt, limit: nat, width: Time)
    requires Left(front, limit, width) == key && a.server < key.expiry
    requires Kept(key.entries, a.now, width) == key.entries && |key.entries| < limit
    ensures Granted(front + [a], limit, width) == Granted(front, limit, width) + [a.now]
  {
    GrantStep(front, key, a, key.entries, limit, width);
  }

  /**
   A reading a window after the zeros purges them all; the caller of `stale` read its clock a tick before that, and
   its script comes after.
   */
  lemma NextPurgesZeros(low: Time, limit: nat, width: Time) returns (attempts: seq<Attempt>, key: Key, stale: Attempt)
    requires limit >= 1 && width > 0
    ensures Left(attempts, limit, width) == key && Granted(attempts, limit, width) == Zeros(limit) + [width]
    ensures OnServer(attempts + [stale], low, low + 1) && 0 <= stale.now < width
    ensures stale.server < key.expiry && |key.entries| == 1 && Kept(key.entries, stale.now, width) == key.entries
  {
    attempts, stale := AtZero(limit, low) + [Attempt(width, low + width)], Attempt(width - 1, low + width);
    key := ZerosArePurged(low, limit, width);
    StaleRunOnServer(low, limit, width);
    OneKept(width, width - 1, width);
  }

  lemma StaleRunOnServer(low: Time, limit: nat, width: Time)
    requires width > 0
    ensures OnServer(
              AtZero(limit, low) + [Attempt(width, low + width)] + [Attempt(width - 1, low + width)], low, low + 1)
  {
  }

  lemma ZerosArePurged(low: Time, limit: nat, width: Time) returns (key: Key)
    requires limit >= 1 && width > 0
    ensures var attempts := AtZero(limit, low) + [Attempt(width, low + width)];
            Left(attempts, limit, width) == key && Granted(attempts, limit, width) == Zeros(limit) + [width]
    ensures key.entries == [width] && low + width < key.expiry
  {
    ZerosAreGranted(limit, low, limit, width);
    KeptZeros(limit, width, width);
    GrantStep(AtZero(limit, low), Key(Zeros(limit), low + width + KEY_GRACE), Attempt(width, low + width), [],
              limit, width);
    assert [] + [width] == [width];
    key := Key([width], low + width + width + KEY_GRACE);
  }

  /** The stale reading is granted too, so the window that starts at zero holds one grant too many. */
  lemma StaleClockBreaksBound(low: Time, limit: nat, width: Time) returns (attempts: seq<Attempt>)
    requires limit >= 2 && width > 0
    ensures OnServer(attempts, low, low + 1)
    ensures !WindowBound(Granted(attempts, limit, width), limit, width)
  {
    var front, key, stale := NextPurgesZeros(low, limit, width);
    attempts := front + [stale];
    FreshKeyGrants(front, key, stale, limit, width);
    OneTooMany(limit, width, stale.now);
  }

  // ---- exactly when the bound holds ----

  /** Readings in order are bounded if and only if none can be over a second further behind than another. */
  lemma OrderedReadingsIff(low: Time, high: Time, limit: nat, width: Time)
    requires limit >= 1 && width > 0
    ensures (forall attempts | OnServer(attempts, low, high) && ReadInOrder(attempts) ::
               WindowBound(Granted(attempts, limit, width), limit, width)) <==> high - low <= 1000
  {
    if high - low <= KEY_GRACE {
      forall attempts | OnServer(attempts, low, high) && ReadInOrder(attempts)
        ensures WindowBound(Granted(attempts, limit, width), limit, width)
      {
        EveryWindowIsBounded(attempts, low, high, limit, width);
      }
    } else {
      LateReadingBreaksBound(low, limit, width);
      assert OnServer(LateRun(low, limit, width), low, high);
    }
  }

  lemma AnyReadingIsBounded(attempts: seq<Attempt>, low: Time, high: Time, limit: nat, width: Time)
    requires OnServer(attempts, low, high) && width > 0
    requires high <= low || (limit == 1 && high - low <= KEY_GRACE)
    ensures WindowBound(Granted(attempts, limit, width), limit, width)
  {
    if high <= low {
      EveryWindowIsBounded(attempts, low, high, limit, width);
    } else {
      LimitOneIsBounded(attempts, low, high, width);
      SpacedIffWindowBound(Granted(attempts, 1, width), 1, width);
    }
  }

  /**
   Readings in any order are bounded if and only if all are equally far behind the server, or the limit is one and
   none can be over a second further behind than another.
   */
  lemma AnyClockIsBoundedIff(low: Time, high: Time, limit: nat, width: Time)
    requires limit >= 1 && width > 0
    ensures (forall attempts | OnServer(attempts, low, high) ::
               WindowBound(Granted(attempts, limit, width), limit, width))
            <==> high <= low || (limit == 1 && high - low <= 1000)
  {
    if high <= low || (limit == 1 && high - low <= KEY_GRACE) {
      forall attempts | OnServer(attempts, low, high)
        ensures WindowBound(Granted(attempts, limit, width), limit, width)
      {
        AnyReadingIsBounded(attempts, low, high, limit, width);
      }
    } else if limit == 1 {
      OrderedReadingsIff(low, high, limit, width);
    } else {
      var attempts := StaleClockBreaksBound(low, limit, width);
      assert OnServer(attempts, low, high);
    }
  }

  // ---- the two limiters ----

  /** `wait_for_*_slot` over Redis: one sorted set per key; `log` records the evaluations of the script. */
  class RedisLimiter {
    const limit: int
    const width: Time
    var members: seq<Time>
    var expiry: Time
    ghost var log: seq<Attempt>

    function EffectiveLimit(): nat {
      if limit < 1 then 1 else limit
    }

    ghost predicate Valid()
      reads this
    {
      Key(members, expiry) == Left(log, EffectiveLimit(), width)
    }

    /** The readings that were granted so far. */
    ghost function History(): seq<Time>
      reads this
    {
      Granted(log, EffectiveLimit(), width)
    }

    constructor (limit: int, width: Time)
      ensures Valid() && log == [] && this.limit == limit && this.width == width
    {
      this.limit, this.width, members, expiry, log := limit, width, [], 0, [];
    }

    /** One evaluation of the script, by any caller and with any reading. */
    method TryAcquire(now: Time, server: Time) returns (acquired: bool)
      requires Valid()
      modifies this
      ensures Valid() && log == old(log) + [Attempt(now, server)]
      ensures History() == old(History()) + (if acquired then [now] else [])
      ensures acquired == GrantsOn(Key(old(members), old(expiry)), Attempt(now, server),
                                   if limit < 1 then 1 else limit, width)
    {
      OneMore(log, Attempt(now, server), EffectiveLimit(), width);
      if expiry <= server {
        members := [];
      }
      members := Kept(members, now, width);
      acquired := |members| < EffectiveLimit();
      if acquired {
        members := members + [now];
        expiry := server + width + KEY_GRACE;
      }
      log := log + [Attempt(now, server)];
    }
  }

  /** `_memory_rps_timestamps`: the same discipline with a one-second window. */
  class MemoryLimiter {
    const maxPerSecond: nat
    var timestamps: seq<Time>
    ghost var history: seq<Time>
    ghost var asOf: Time

    ghost predicate Valid()
      reads this
    {
      Tracks(timestamps, history, asOf, maxPerSecond, 1000)
    }

    constructor (maxPerSecond: nat)
      ensures Valid() && history == [] && this.maxPerSecond == maxPerSecond
    {
      this.maxPerSecond, timestamps, history, asOf := maxPerSecond, [], [], 0;
    }

    method TryAcquire(now: Time) returns (acquired: bool)
      requires Valid() && asOf <= now
      modifies this
      ensures Valid() && asOf == now
      ensures acquired == Grants(old(timestamps), now, maxPerSecond, 1000)
      ensures history == Grown(old(timestamps), old(history), now, maxPerSecond, 1000)
    {
      AttemptKeepsTrack(timestamps, history, asOf, now, maxPerSecond, ONE_SECOND);
      timestamps := Kept(timestamps, now, ONE_SECOND);
      acquired := |timestamps| < maxPerSecond;
      if acquired {
        timestamps := timestamps + [now];
        history := history + [now];
      }
      asOf := now;
    }
  }
}
