/**
 The daily request budget: one row per UTC day, incremented by a single atomic statement, with a
 part reserved for manual work. Concurrent callers are an arbitrary order of those statements.
 */
module DailyBudget {
  type Day = int

  /** DADATA_DAILY_REQUEST_LIMIT and DADATA_DAILY_REQUEST_RESERVE. */
  datatype Budget = Budget(limit: int, reserve: int)

  /** What `validate_runtime_configuration` insists on. */
  predicate Configured(b: Budget) {
    b.reserve < b.limit
  }

  /** `day` is the date the caller read before its statement ran, `dbDay` the date of the database at the purge. */
  datatype Request = Request(day: Day, dbDay: Day, keepReserve: bool)

  const KEPT_DAYS := 90

  function RequestLimit(b: Budget, r: Request): int {
    b.limit - (if r.keepReserve then b.reserve else 0)
  }

  /** The row count the statement reports is zero only when it leaves the row alone. */
  predicate Reserves(b: Budget, usage: map<Day, int>, r: Request) {
    r.day !in usage || usage[r.day] < RequestLimit(b, r)
  }

  function AfterInsert(b: Budget, usage: map<Day, int>, r: Request): map<Day, int> {
    if r.day !in usage then usage[r.day := 1]
    else if usage[r.day] < RequestLimit(b, r) then usage[r.day := usage[r.day] + 1]
    else usage
  }

  /** Rows older than ninety days are deleted. */
  function Purge(usage: map<Day, int>, today: Day): map<Day, int> {
    map d | d in usage && d >= today - KEPT_DAYS :: usage[d]
  }

  function AfterReserve(b: Budget, usage: map<Day, int>, r: Request): map<Day, int> {
    Purge(AfterInsert(b, usage, r), r.dbDay)
  }

  /** The table after a history of requests. */
  function Usage(b: Budget, history: seq<Request>): map<Day, int> {
    if history == [] then map[]
    else AfterReserve(b, Usage(b, history[..|history| - 1]), history[|history| - 1])
  }

  /** Successful reservations of one kind on one day. */
  function Reserved(b: Budget, history: seq<Request>, day: Day, keepReserve: bool): nat {
    if history == [] then 0
    else
      var before, last := history[..|history| - 1], history[|history| - 1];
      Reserved(b, before, day, keepReserve)
      + (if last.day == day && last.keepReserve == keepReserve && Reserves(b, Usage(b, before), last) then 1 else 0)
  }

  function ReservedOn(b: Budget, history: seq<Request>, day: Day): nat {
    Reserved(b, history, day, true) + Reserved(b, history, day, false)
  }

  /** No request comes so late that the row of its day was already purged: a caller may be ninety days behind. */
  ghost predicate Timely(history: seq<Request>) {
    forall i, j | 0 <= i < j < |history| :: history[i].dbDay <= history[j].day + 90
  }

  /** The row of the day has not been purged. */
  ghost predicate StillKept(history: seq<Request>, day: Day) {
    forall i | 0 <= i < |history| :: history[i].dbDay <= day + KEPT_DAYS
  }

  function CountOf(usage: map<Day, int>, day: Day): int {
    if day in usage then usage[day] else 0
  }

  /** The row of every day that can still be used counts exactly the reservations that succeeded. */
  lemma {:induction false} RowCountsReservations(b: Budget, history: seq<Request>, day: Day)
    requires Timely(history) && StillKept(history, day)
    ensures CountOf(Usage(b, history), day) == ReservedOn(b, history, day)
    ensures day in Usage(b, history) ==> Usage(b, history)[day] >= 1
  {
    if history != [] {
      RowCountsReservations(b, history[..|history| - 1], day);
      assert history[|history| - 1].dbDay <= day + KEPT_DAYS;
    }
  }

  function Max(a: int, b: int): int {
    if a < b then b else a
  }

  /** On every day, whatever the interleaving: bulk work stays below the reserve, both together below the limit. */
  lemma {:induction false} BudgetIsKept(b: Budget, history: seq<Request>, day: Day)
    requires Configured(b) && Timely(history)
    ensures Reserved(b, history, day, true) <= b.limit - b.reserve
    ensures ReservedOn(b, history, day) <= Max(b.limit, b.limit - b.reserve)
  {
    if history != [] {
      var before, last := history[..|history| - 1], history[|history| - 1];
      BudgetIsKept(b, before, day);
      if last.day == day {
        assert StillKept(before, day);
        RowCountsReservations(b, before, day);
      }
    }
  }

  /** As long as fewer than `reserve` manual reservations have succeeded on a day, the next manual one succeeds. */
  lemma ManualReserveIsAvailable(b: Budget, history: seq<Request>, r: Request)
    requires Configured(b) && Timely(history + [r]) && !r.keepReserve
    requires Reserved(b, history, r.day, false) < b.reserve
    ensures Reserves(b, Usage(b, history), r)
  {
    TimelyPrefix(history, r);
    BudgetIsKept(b, history, r.day);
    RowCountsReservations(b, history, r.day);
  }

  lemma TimelyPrefix(history: seq<Request>, r: Request)
    requires Timely(history + [r])
    ensures Timely(history) && StillKept(history, r.day)
  {
    var all := history + [r];
    assert all[|history|] == r && forall i | 0 <= i < |history| :: all[i] == history[i];
  }

  /**
   A reservation succeeds exactly when it is the first of its day or fewer than the limit succeeded on it before,
   the reserve being off limits for bulk work.
   */
  lemma ReservesIff(b: Budget, history: seq<Request>, r: Request)
    requires Timely(history + [r])
    ensures var before := ReservedOn(b, history, r.day);
            Reserves(b, Usage(b, history), r)
            <==> before == 0 || before < b.limit - (if r.keepReserve then b.reserve else 0)
  {
    TimelyPrefix(history, r);
    RowCountsReservations(b, history, r.day);
  }

  /** A request deletes the rows that are more than ninety days old for the database, and leaves all the others. */
  lemma OldRowsGo(b: Budget, history: seq<Request>, r: Request, day: Day)
    ensures var before, after := Usage(b, history), Usage(b, history + [r]);
            && (day in after <==> (day in before || day == r.day) && r.dbDay - day <= 90)
            && (day in after && day != r.day ==> after[day] == before[day])
  {
    assert (history + [r])[..|history|] == history;
  }

  // ---- exactly which configurations keep the limit ----

  function BulkDay(n: nat): seq<Request> {
    seq(n, _ => Request(0, 0, true))
  }

  /** Bulk work alone can use everything above the reserve. */
  lemma {:induction false} BulkFillsItsShare(b: Budget, n: nat)
    requires Configured(b) && n <= b.limit - b.reserve
    ensures Timely(BulkDay(n)) && Reserved(b, BulkDay(n), 0, true) == n && Reserved(b, BulkDay(n), 0, false) == 0
  {
    if n > 0 {
      assert BulkDay(n)[..n - 1] == BulkDay(n - 1);
      BulkFillsItsShare(b, n - 1);
      RowCountsReservations(b, BulkDay(n - 1), 0);
    }
  }

  /**
   `validate_runtime_configuration` admits a negative reserve; the limit then does not hold. It holds
   for every history exactly when the reserve is not negative.
   */
  lemma LimitHoldsIff(b: Budget)
    requires Configured(b)
    ensures (forall history, day | Timely(history) :: ReservedOn(b, history, day) <= b.limit) <==> b.reserve >= 0
  {
    forall history, day | Timely(history) && b.reserve >= 0
      ensures ReservedOn(b, history, day) <= b.limit
    {
      BudgetIsKept(b, history, day);
    }
    if b.reserve < 0 {
      BulkFillsItsShare(b, b.limit - b.reserve);
      assert ReservedOn(b, BulkDay(b.limit - b.reserve), 0) > b.limit;
    }
  }
}
