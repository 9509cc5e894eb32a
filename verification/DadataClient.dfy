/** The HTTP client: every POST is preceded by a reservation, and retries stop at the first final answer. */
module DadataClient {
  import opened Options
  import opened DailyBudget

  /** What the outside contributes to one attempt. */
  datatype Circumstances = Circumstances(day: Day, dbDay: Day, redisUp: bool, clientReady: bool, reply: Reply)
  datatype Reply = NoReply | HttpStatus(code: int)

  datatype Response = LimitReached | NoResponse | Received(code: int)

  predicate Retryable(reply: Reply) {
    reply.NoReply? || reply.code >= 500
  }

  /** Successful reservations of a whole history. */
  function TotalReserved(b: Budget, history: seq<Request>): nat {
    if history == [] then 0
    else
      var before, last := history[..|history| - 1], history[|history| - 1];
      TotalReserved(b, before) + (if Reserves(b, Usage(b, before), last) then 1 else 0)
  }

  lemma OneMoreRequest(b: Budget, history: seq<Request>, r: Request)
    ensures Usage(b, history + [r]) == AfterReserve(b, Usage(b, history), r)
    ensures TotalReserved(b, history + [r])
              == TotalReserved(b, history) + (if Reserves(b, Usage(b, history), r) then 1 else 0)
  {
    assert (history + [r])[..|history|] == history;
  }

  class Client {
    const budget: Budget
    var usage: map<Day, int>
    var posts: nat
    ghost var history: seq<Request>

    /** The table is what the history of requests makes it, and no POST went out without a reservation. */
    ghost predicate Valid()
      reads this
    {
      usage == Usage(budget, history) && posts <= TotalReserved(budget, history)
    }

    constructor (budget: Budget)
      ensures Valid() && this.budget == budget && posts == 0 && history == []
    {
      this.budget, usage, posts, history := budget, map[], 0, [];
    }

    method ReserveDailyRequest(day: Day, dbDay: Day, keepReserve: bool) returns (reserved: bool)
      requires Valid()
      modifies this
      ensures Valid() && posts == old(posts) && history == old(history) + [Request(day, dbDay, keepReserve)]
      ensures reserved == Reserves(budget, old(usage), Request(day, dbDay, keepReserve))
      ensures TotalReserved(budget, history) == TotalReserved(budget, old(history)) + (if reserved then 1 else 0)
    {
      var r := Request(day, dbDay, keepReserve);
      OneMoreRequest(budget, history, r);
      reserved := day !in usage || usage[day] < RequestLimit(budget, r);
      if day !in usage {
        usage := usage[day := 1];
      } else if usage[day] < RequestLimit(budget, r) {
        usage := usage[day := usage[day] + 1];
      }
      usage := Purge(usage, dbDay);
      history := history + [r];
    }

    /** `_post_party_request`: `None` is the rate-limit error. */
    method PostPartyRequest(c: Circumstances, keepReserve: bool) returns (reply: Option<Reply>)
      requires Valid()
      modifies this
      ensures Valid()
      ensures reply == if || (!c.redisUp && keepReserve)
                          || !Reserves(budget, old(usage), Request(c.day, c.dbDay, keepReserve))
                          || !c.clientReady
                       then None else Some(c.reply)
      ensures posts == old(posts) + (if reply.Some? then 1 else 0)
      ensures history == if !c.redisUp && keepReserve then old(history)
                         else old(history) + [Request(c.day, c.dbDay, keepReserve)]
      ensures TotalReserved(budget, history) - TotalReserved(budget, old(history)) >= posts - old(posts)
    {
      if !c.redisUp && keepReserve {
        return None;
      }
      var reserved := ReserveDailyRequest(c.day, c.dbDay, keepReserve);
      if !reserved || !c.clientReady {
        return None;
      }
      posts := posts + 1;
      reply := Some(c.reply);
    }

    /** The first `n` attempts of a request were posted, and none of them settled it. */
    ghost predicate Retrying(before: seq<Request>, posted: nat, outside: seq<Circumstances>, n: nat, keepReserve: bool)
      reads this
    {
      && PassedOver(budget, before, outside, n, keepReserve)
      && Asked(before, posted, outside, n, n, keepReserve)
    }

    /** `n` attempts were made and `m` of them posted, each on a reservation of its own. */
    ghost predicate Asked(
      before: seq<Request>, posted: nat, outside: seq<Circumstances>, n: nat, m: nat, keepReserve: bool)
      requires n <= |outside|
      reads this
    {
      && Valid() && history == before + Requests(outside[..n], keepReserve)
      && posts == posted + m && m <= TotalReserved(budget, history) - TotalReserved(budget, before)
    }

    /** `n` attempts were made, the last with this outcome, and every earlier one was posted in vain. */
    ghost predicate Made(
      before: seq<Request>, posted: nat, outside: seq<Circumstances>, n: nat, reply: Option<Reply>, keepReserve: bool)
      reads this
    {
      && 1 <= n <= |outside|
      && PassedOver(budget, before, outside, n - 1, keepReserve)
      && reply == (if Refused(budget, before, outside, n - 1, keepReserve) then None else Some(outside[n - 1].reply))
      && Asked(before, posted, outside, n, if reply.None? then n - 1 else n, keepReserve)
    }

    /** Attempt `i` of a request that began with the history `before` and `posted` posts. */
    method TryOnce(
      outside: seq<Circumstances>, i: nat, keepReserve: bool, ghost before: seq<Request>, ghost posted: nat)
      returns (reply: Option<Reply>)
      requires i < |outside| && Retrying(before, posted, outside, i, keepReserve)
      modifies this
      ensures Made(before, posted, outside, i + 1, reply, keepReserve)
    {
      RequestsGrow(before, outside, i, keepReserve);
      ghost var refused := Refused(budget, before, outside, i, keepReserve);
      assert history == before + Requests(outside[..i], keepReserve);
      reply := PostPartyRequest(outside[i], keepReserve);
      assert reply == if refused then None else Some(outside[i].reply);
      assert history == before + Requests(outside[..i + 1], keepReserve);
      assert Asked(before, posted, outside, i + 1, if reply.None? then i else i + 1, keepReserve);
    }

    lemma AttemptInVain(
      before: seq<Request>, posted: nat, outside: seq<Circumstances>, n: nat, reply: Option<Reply>, keepReserve: bool)
      requires Made(before, posted, outside, n, reply, keepReserve) && reply.Some? && Retryable(reply.value)
      ensures Retrying(before, posted, outside, n, keepReserve)
    {
      OneMorePassed(budget, before, outside, n - 1, keepReserve);
    }

    /**
     `attempts` is the number of retries plus one, at least one; `outside` has an entry per attempt. The answer is
     that of the first attempt that is refused or answered below 500, or of the last; `made` attempts were made.
     */
    method RequestWithRetries(outside: seq<Circumstances>, keepReserve: bool)
      returns (response: Response, ghost made: nat)
      requires Valid() && |outside| >= 1
      modifies this
      ensures Made(old(history), old(posts), outside, made,
                   match response
                   case LimitReached => None
                   case NoResponse => Some(NoReply)
                   case Received(code) => Some(HttpStatus(code)), keepReserve)
      ensures response.LimitReached? || (response.Received? && response.code < 500) || made == |outside|
    {
      ghost var before, posted := history, posts;
      assert outside[..0] == [] && history + [] == history;
      var reply := TryOnce(outside, 0, keepReserve, before, posted);
      var attempts := 1;
      while attempts < |outside| && reply.Some? && Retryable(reply.value)
        invariant Made(before, posted, outside, attempts, reply, keepReserve)
        decreases |outside| - attempts
      {
        AttemptInVain(before, posted, outside, attempts, reply, keepReserve);
        reply := TryOnce(outside, attempts, keepReserve, before, posted);
        attempts := attempts + 1;
      }
      made := attempts;
      match reply
      case None => response := LimitReached;
      case Some(NoReply) => response := NoResponse;
      case Some(HttpStatus(code)) => response := Received(code);
    }
  }

  /** The reservations that a list of attempts asks the table for: bulk work without Redis does not come that far. */
  function Requests(outside: seq<Circumstances>, keepReserve: bool): seq<Request> {
    if outside == [] then []
    else
      var front, c := outside[..|outside| - 1], outside[|outside| - 1];
      Requests(front, keepReserve) + (if keepReserve && !c.redisUp then [] else [Request(c.day, c.dbDay, keepReserve)])
  }

  /** Attempt `i` after those before it: Redis is down for bulk work, the day is full, or there is no client. */
  predicate Refused(b: Budget, history: seq<Request>, outside: seq<Circumstances>, i: nat, keepReserve: bool)
    requires i < |outside|
  {
    var c := outside[i];
    var table := Usage(b, history + Requests(outside[..i], keepReserve));
    || (keepReserve && !c.redisUp)
    || (c.day in table && table[c.day] >= b.limit - (if keepReserve then b.reserve else 0))
    || !c.clientReady
  }

  /** The first `n` attempts were posted, and each was left without an answer or got a server error. */
  predicate PassedOver(b: Budget, history: seq<Request>, outside: seq<Circumstances>, n: int, keepReserve: bool) {
    n <= |outside| && forall i | 0 <= i < n :: Passed(b, history, outside, i, keepReserve)
  }

  predicate Passed(b: Budget, history: seq<Request>, outside: seq<Circumstances>, i: nat, keepReserve: bool)
    requires i < |outside|
  {
    && !Refused(b, history, outside, i, keepReserve)
    && (outside[i].reply == NoReply || outside[i].reply.code >= 500)
  }

  lemma OneMorePassed(b: Budget, history: seq<Request>, outside: seq<Circumstances>, i: nat, keepReserve: bool)
    requires i < |outside| && PassedOver(b, history, outside, i, keepReserve)
    requires Passed(b, history, outside, i, keepReserve)
    ensures PassedOver(b, history, outside, i + 1, keepReserve)
  {
  }

  /** An attempt that is not refused and is answered below 500 ends the request with that answer. */
  lemma FirstAnswerIsGiven(
    b: Budget, history: seq<Request>, outside: seq<Circumstances>, made: nat, k: nat, keepReserve: bool)
    requires k < |outside| && PassedOver(b, history, outside, made - 1, keepReserve)
    requires Refused(b, history, outside, k, keepReserve)
             || (outside[k].reply.HttpStatus? && outside[k].reply.code < 500)
    ensures made <= k + 1
  {
    assert !Passed(b, history, outside, k, keepReserve);
  }

  lemma RequestsGrow(history: seq<Request>, outside: seq<Circumstances>, i: nat, keepReserve: bool)
    requires i < |outside|
    ensures var c := outside[i];
            history + Requests(outside[..i + 1], keepReserve)
            == history + Requests(outside[..i], keepReserve)
               + (if keepReserve && !c.redisUp then [] else [Request(c.day, c.dbDay, keepReserve)])
  {
    assert outside[..i + 1][..i] == outside[..i];
    var c, asked := outside[i], Requests(outside[..i], keepReserve);
    var more := if keepReserve && !c.redisUp then [] else [Request(c.day, c.dbDay, keepReserve)];
    assert history + (asked + more) == history + asked + more;
  }

  // ---- callers that interleave ----

  type Caller = nat

  /** A caller reserves, then posts or finds no client; others may come in between. */
  datatype Action = Reserve(caller: Caller, request: Request) | Post(caller: Caller) | GiveUp(caller: Caller)

  /** `waiting` holds the day each caller reserved for but has not used; `posted` the day of each POST. */
  datatype Traffic = Traffic(usage: map<Day, int>, history: seq<Request>, waiting: map<Caller, Day>, posted: seq<Day>)

  const QUIET := Traffic(map[], [], map[], [])

  predicate Enabled(t: Traffic, a: Action) {
    match a
    case Reserve(caller, _) => caller !in t.waiting
    case Post(caller) => caller in t.waiting
    case GiveUp(caller) => caller in t.waiting
  }

  function Next(b: Budget, t: Traffic, a: Action): Traffic
    requires Enabled(t, a)
  {
    match a
    case Reserve(caller, r) =>
      Traffic(AfterReserve(b, t.usage, r), t.history + [r],
              if Reserves(b, t.usage, r) then t.waiting[caller := r.day] else t.waiting, t.posted)
    case Post(caller) => t.(waiting := t.waiting - {caller}, posted := t.posted + [t.waiting[caller]])
    case GiveUp(caller) => t.(waiting := t.waiting - {caller})
  }

  predicate ValidRun(b: Budget, t: Traffic, actions: seq<Action>)
    decreases |actions|
  {
    actions == [] || (Enabled(t, actions[0]) && ValidRun(b, Next(b, t, actions[0]), actions[1..]))
  }

  function Run(b: Budget, t: Traffic, actions: seq<Action>): Traffic
    requires ValidRun(b, t, actions)
    decreases |actions|
  {
    if actions == [] then t else Run(b, Next(b, t, actions[0]), actions[1..])
  }

  function PostsOn(posted: seq<Day>, day: Day): nat {
    if posted == [] then 0 else PostsOn(posted[..|posted| - 1], day) + (if posted[|posted| - 1] == day then 1 else 0)
  }

  function WaitingOn(waiting: map<Caller, Day>, day: Day): set<Caller> {
    set caller | caller in waiting && waiting[caller] == day
  }

  /** Posts and callers about to post are covered by reservations for the same day. */
  ghost predicate Covered(b: Budget, t: Traffic) {
    && t.usage == Usage(b, t.history)
    && forall day :: PostsOn(t.posted, day) + |WaitingOn(t.waiting, day)| <= ReservedOn(b, t.history, day)
  }

  lemma ReservedGrows(b: Budget, history: seq<Request>, r: Request, day: Day)
    ensures ReservedOn(b, history + [r], day)
         == ReservedOn(b, history, day) + (if r.day == day && Reserves(b, Usage(b, history), r) then 1 else 0)
  {
    assert (history + [r])[..|history|] == history;
  }

  lemma WaitingGrows(waiting: map<Caller, Day>, caller: Caller, reserved: Day, day: Day)
    requires caller !in waiting
    ensures |WaitingOn(waiting[caller := reserved], day)|
            == |WaitingOn(waiting, day)| + (if reserved == day then 1 else 0)
  {
    assert WaitingOn(waiting[caller := reserved], day)
           == WaitingOn(waiting, day) + (if reserved == day then {caller} else {});
  }

  lemma ReserveKeepsCovered(b: Budget, t: Traffic, caller: Caller, r: Request)
    requires Covered(b, t) && caller !in t.waiting
    ensures Covered(b, Next(b, t, Reserve(caller, r)))
  {
    var t' := Next(b, t, Reserve(caller, r));
    OneMoreRequest(b, t.history, r);
    forall day
      ensures PostsOn(t'.posted, day) + |WaitingOn(t'.waiting, day)| <= ReservedOn(b, t'.history, day)
    {
      ReservedGrows(b, t.history, r, day);
      WaitingGrows(t.waiting, caller, r.day, day);
    }
  }

  lemma LeaveKeepsCovered(b: Budget, t: Traffic, caller: Caller, posts: bool)
    requires Covered(b, t) && caller in t.waiting
    ensures Covered(b, Next(b, t, if posts then Post(caller) else GiveUp(caller)))
  {
    var t' := Next(b, t, if posts then Post(caller) else GiveUp(caller));
    forall day
      ensures PostsOn(t'.posted, day) + |WaitingOn(t'.waiting, day)| <= ReservedOn(b, t'.history, day)
    {
      assert WaitingOn(t'.waiting, day) == WaitingOn(t.waiting, day) - {caller};
      assert (t.posted + [t.waiting[caller]])[..|t.posted|] == t.posted;
    }
  }

  lemma {:induction false} RunKeepsCovered(b: Budget, t: Traffic, actions: seq<Action>)
    requires Covered(b, t) && ValidRun(b, t, actions)
    ensures Covered(b, Run(b, t, actions))
    decreases |actions|
  {
    if actions != [] {
      match actions[0] {
        case Reserve(caller, r) => ReserveKeepsCovered(b, t, caller, r);
        case Post(caller) => LeaveKeepsCovered(b, t, caller, true);
        case GiveUp(caller) => LeaveKeepsCovered(b, t, caller, false);
      }
      RunKeepsCovered(b, Next(b, t, actions[0]), actions[1..]);
    }
  }

  /**
   However callers interleave between reservation and post: the posts for a day never exceed the
   reservations that succeeded for it, and with a reserve that is not negative they never exceed the limit.
   */
  lemma PostsStayWithinBudget(b: Budget, actions: seq<Action>, day: Day)
    requires ValidRun(b, QUIET, actions)
    ensures var t := Run(b, QUIET, actions);
            && PostsOn(t.posted, day) <= ReservedOn(b, t.history, day)
            && (Configured(b) && b.reserve >= 0 && Timely(t.history) ==> PostsOn(t.posted, day) <= b.limit)
  {
    assert forall d :: WaitingOn(QUIET.waiting, d) == {};
    RunKeepsCovered(b, QUIET, actions);
    var t := Run(b, QUIET, actions);
    if Configured(b) && b.reserve >= 0 && Timely(t.history) {
      BudgetIsKept(b, t.history, day);
    }
  }
}
