/**
 Refreshing all organizations: the grouping by INN, and the direct loop over the groups that is used
 where no queue is.
 */
module RefreshAll {
  import opened Options
  import opened Text
  import Cards
  import Refresh
  import JobProtocol

  type OrgId = Cards.OrgId

  /** An organization with a column that is not null. */
  datatype Row = Row(id: OrgId, inn: string)
  datatype Group = Group(inn: string, ids: seq<OrgId>)

  function FindGroup(groups: seq<Group>, inn: string): (k: nat)
    ensures k <= |groups|
    ensures k < |groups| ==> groups[k].inn == inn
    ensures forall j | 0 <= j < k :: groups[j].inn != inn
  {
    if groups == [] || groups[0].inn == inn then 0 else 1 + FindGroup(groups[1..], inn)
  }

  /** `groups.setdefault(inn, []).append(id)`; a dictionary keeps the order of its first insertions. */
  function AddRow(groups: seq<Group>, row: Row): seq<Group> {
    match NormalizeInn(row.inn)
    case None => groups
    case Some(inn) =>
      var k := FindGroup(groups, inn);
      if k < |groups| then groups[k := Group(inn, groups[k].ids + [row.id])] else groups + [Group(inn, [row.id])]
  }

  function GroupsOf(rows: seq<Row>): seq<Group> {
    if rows == [] then [] else AddRow(GroupsOf(rows[..|rows| - 1]), rows[|rows| - 1])
  }

  method FetchGroups(rows: seq<Row>) returns (groups: seq<Group>)
    ensures groups == GroupsOf(rows)
  {
    groups := [];
    var i := 0;
    while i < |rows|
      invariant 0 <= i <= |rows|
      invariant groups == GroupsOf(rows[..i])
    {
      assert rows[..i + 1][..i] == rows[..i];
      var inn := NormalizeInn(rows[i].inn);
      if inn.Some? {
        var k := FindGroup(groups, inn.value);
        ghost var before := groups;
        if k == |groups| {
          groups := groups + [Group(inn.value, [])];
          assert groups[k].ids + [rows[i].id] == [rows[i].id];
          assert groups[k := groups[k].(ids := groups[k].ids + [rows[i].id])]
            == before + [Group(inn.value, [rows[i].id])];
        }
        groups := groups[k := groups[k].(ids := groups[k].ids + [rows[i].id])];
      }
      i := i + 1;
    }
    assert rows[..i] == rows;
  }

  // ---- the groups are a partition ----

  function IdsWith(rows: seq<Row>, inn: string): seq<OrgId> {
    if rows == [] then []
    else
      var last := rows[|rows| - 1];
      IdsWith(rows[..|rows| - 1], inn) + (if NormalizeInn(last.inn) == Some(inn) then [last.id] else [])
  }

  /** A group lists the organizations of its INN in the order of the rows. */
  predicate Filled(rows: seq<Row>, group: Group) {
    group.ids == IdsWith(rows, group.inn) && group.ids != [] && IsInn(group.inn)
  }

  predicate AllFilled(rows: seq<Row>, groups: seq<Group>) {
    forall k | 0 <= k < |groups| :: Filled(rows, groups[k])
  }

  predicate DistinctGroups(groups: seq<Group>) {
    forall a, b | 0 <= a < b < |groups| :: groups[a].inn != groups[b].inn
  }

  predicate Listed(groups: seq<Group>, inn: string) {
    FindGroup(groups, inn) < |groups|
  }

  lemma AddRowLists(groups: seq<Group>, row: Row, inn: string)
    ensures Listed(AddRow(groups, row), inn) <==> Listed(groups, inn) || NormalizeInn(row.inn) == Some(inn)
  {
    var added := AddRow(groups, row);
    var j := FindGroup(groups, inn);
    assert j < |groups| ==> added[j].inn == inn;
    assert forall k | 0 <= k < |groups| :: added[k].inn == groups[k].inn;
    if NormalizeInn(row.inn) == Some(inn) {
      assert added[j].inn == inn;
    }
  }

  lemma AddRowFills(rows: seq<Row>, groups: seq<Group>)
    requires rows != [] && DistinctGroups(groups) && AllFilled(rows[..|rows| - 1], groups)
    requires forall inn :: IdsWith(rows[..|rows| - 1], inn) != [] ==> Listed(groups, inn)
    ensures AllFilled(rows, AddRow(groups, rows[|rows| - 1]))
    ensures DistinctGroups(AddRow(groups, rows[|rows| - 1]))
  {
    var added := AddRow(groups, rows[|rows| - 1]);
    forall k | 0 <= k < |added|
      ensures Filled(rows, added[k])
    {
      if k < |groups| {
        assert Filled(rows[..|rows| - 1], groups[k]);
        OldGroupIsFilled(rows, groups, k);
      } else {
        assert !Listed(groups, added[k].inn);
        NewGroupIsFilled(rows);
      }
    }
    AddRowStaysDistinct(groups, rows[|rows| - 1]);
  }

  lemma AddRowStaysDistinct(groups: seq<Group>, row: Row)
    requires DistinctGroups(groups)
    ensures DistinctGroups(AddRow(groups, row))
  {
    assert forall k | 0 <= k < |groups| :: AddRow(groups, row)[k].inn == groups[k].inn;
  }

  lemma OldGroupIsFilled(rows: seq<Row>, groups: seq<Group>, k: nat)
    requires rows != [] && k < |groups| && DistinctGroups(groups) && Filled(rows[..|rows| - 1], groups[k])
    ensures Filled(rows, AddRow(groups, rows[|rows| - 1])[k])
  {
  }

  lemma NewGroupIsFilled(rows: seq<Row>)
    requires rows != [] && NormalizeInn(rows[|rows| - 1].inn).Some?
    requires IdsWith(rows[..|rows| - 1], NormalizeInn(rows[|rows| - 1].inn).value) == []
    ensures Filled(rows, Group(NormalizeInn(rows[|rows| - 1].inn).value, [rows[|rows| - 1].id]))
  {
    NormalizeInnIsInn(rows[|rows| - 1].inn);
  }

  /** Every INN that occurs has exactly one group, and the group lists its organizations in order. */
  lemma {:induction false} GroupsArePartition(rows: seq<Row>)
    ensures DistinctGroups(GroupsOf(rows)) && AllFilled(rows, GroupsOf(rows))
    ensures forall inn :: IdsWith(rows, inn) != [] <==> Listed(GroupsOf(rows), inn)
  {
    if rows != [] {
      var front, last := rows[..|rows| - 1], rows[|rows| - 1];
      GroupsArePartition(front);
      AddRowFills(rows, GroupsOf(front));
      forall inn
        ensures IdsWith(rows, inn) != [] <==> Listed(GroupsOf(rows), inn)
      {
        AddRowLists(GroupsOf(front), last, inn);
      }
    }
  }

  function TotalIds(groups: seq<Group>): nat {
    if groups == [] then 0 else TotalIds(groups[..|groups| - 1]) + |groups[|groups| - 1].ids|
  }

  function ValidRows(rows: seq<Row>): nat {
    if rows == [] then 0
    else ValidRows(rows[..|rows| - 1]) + (if NormalizeInn(rows[|rows| - 1].inn).Some? then 1 else 0)
  }

  lemma {:induction false} TotalIdsUpdate(groups: seq<Group>, k: nat, group: Group)
    requires k < |groups|
    ensures TotalIds(groups[k := group]) == TotalIds(groups) - |groups[k].ids| + |group.ids|
  {
    var front, front' := groups[..|groups| - 1], groups[k := group][..|groups| - 1];
    if k < |groups| - 1 {
      assert front' == front[k := group];
      TotalIdsUpdate(front, k, group);
    } else {
      assert front' == front;
    }
  }

  /** `total_organizations` is the number of organizations whose INN is valid. */
  lemma {:induction false} GroupsLoseNobody(rows: seq<Row>)
    ensures TotalIds(GroupsOf(rows)) == ValidRows(rows)
  {
    if rows != [] {
      var front, last := rows[..|rows| - 1], rows[|rows| - 1];
      GroupsLoseNobody(front);
      if NormalizeInn(last.inn).Some? {
        var before := GroupsOf(front);
        var inn := NormalizeInn(last.inn).value;
        var k := FindGroup(before, inn);
        if k < |before| {
          TotalIdsUpdate(before, k, Group(inn, before[k].ids + [last.id]));
        } else {
          assert GroupsOf(rows)[..|before|] == before;
        }
      }
    }
  }

  /** The rows the query returns: organizations with a column, in the order of their ids. */
  function RowsOf(ids: seq<OrgId>, cards: map<OrgId, Cards.Card>): seq<Row> {
    if ids == [] then []
    else
      var last := ids[|ids| - 1];
      RowsOf(ids[..|ids| - 1], cards)
      + (if last in cards && cards[last].inn.Some? then [Row(last, cards[last].inn.value)] else [])
  }

  /** When columns hold clean INNs, a group is exactly what a refresh of that INN will lock and update. */
  lemma {:induction false} GroupIsWhatRefreshLocks(ids: seq<OrgId>, cards: map<OrgId, Cards.Card>, inn: string)
    requires forall id | id in cards && cards[id].inn.Some? :: IsInn(cards[id].inn.value)
    ensures IdsWith(RowsOf(ids, cards), inn) == Refresh.GroupOf(ids, cards, inn)
  {
    if ids != [] {
      var front, last := ids[..|ids| - 1], ids[|ids| - 1];
      GroupIsWhatRefreshLocks(front, cards, inn);
      if last in cards && cards[last].inn.Some? {
        NormalizeInnIsInn(cards[last].inn.value);
        assert RowsOf(ids, cards)[..|RowsOf(front, cards)|] == RowsOf(front, cards);
      } else {
        assert RowsOf(ids, cards) == RowsOf(front, cards);
      }
    }
  }

  function Sizes(groups: seq<Group>): seq<JobProtocol.Group> {
    seq(|groups|, i requires 0 <= i < |groups| => JobProtocol.Group(groups[i].inn, |groups[i].ids|))
  }

  lemma {:induction false} SizesAddUp(groups: seq<Group>)
    ensures JobProtocol.SumSizes(Sizes(groups)) == TotalIds(groups)
  {
    if groups != [] {
      SizesAddUp(groups[..|groups| - 1]);
      assert Sizes(groups)[..|groups| - 1] == Sizes(groups[..|groups| - 1]);
    }
  }

  /** What the queue protocol asks of the groups of a parent is what the grouping gives. */
  lemma GroupsStartARefresh(rows: seq<Row>, c: JobProtocol.Settings, w: JobProtocol.World, parent: nat)
    ensures JobProtocol.Enabled(c, w, JobProtocol.BeginRefresh(parent, Sizes(GroupsOf(rows))))
    ensures JobProtocol.SumSizes(Sizes(GroupsOf(rows))) == ValidRows(rows)
  {
    GroupsArePartition(rows);
    GroupsLoseNobody(rows);
    SizesAddUp(GroupsOf(rows));
  }

  // ---- the direct loop ----

  /** The response of a group, or the exception its refresh raised. */
  type Response = Option<Refresh.Status>

  datatype Tally = Tally(processed: nat, updated: nat, failed: nat, skipped: nat)

  /** What one group adds. */
  function Count(t: Tally, size: nat, response: Response): Tally {
    var t' := t.(processed := t.processed + size);
    match response
    case Some(Updated) => t'.(updated := t.updated + size)
    case Some(NotFound) => t'.(skipped := t.skipped + size)
    case Some(Skipped) => t'.(skipped := t.skipped + size)
    case _ => t'.(failed := t.failed + size)
  }

  function CountAll(groups: seq<Group>, responses: seq<Response>): Tally
    requires |responses| == |groups|
  {
    if groups == [] then Tally(0, 0, 0, 0)
    else
      Count(CountAll(groups[..|groups| - 1], responses[..|groups| - 1]),
            |groups[|groups| - 1].ids|, responses[|groups| - 1])
  }

  /** How many groups are counted: all, or those up to the first that ran into the limit. */
  function Counted(responses: seq<Response>): (n: nat)
    ensures n <= |responses|
    ensures forall i | 0 <= i < n - 1 :: responses[i] != Some(Refresh.RateLimited)
    ensures n == |responses| || (n > 0 && responses[n - 1] == Some(Refresh.RateLimited))
  {
    if responses == [] then 0
    else if responses[0] == Some(Refresh.RateLimited) then 1
    else
      var n := Counted(responses[1..]);
      assert forall i | 1 <= i < n :: responses[i] == responses[1..][i - 1];
      n + 1
  }

  datatype Verdict = Completed | Failed | RateLimited | Raised

  /** Where the last batch starts, counting from a batch start. */
  function LastStart(start: nat, n: nat, step: nat): nat
    requires step >= 1
    decreases n - start
  {
    if start + step >= n then start else LastStart(start + step, n, step)
  }

  /** Group `k` of `n` is the only one of its batch: it runs in the caller, and its exception is not caught. */
  predicate Alone(k: nat, n: nat, step: nat)
    requires step >= 1
  {
    k < n && (step == 1 || (k == n - 1 && LastStart(0, n, step) == k))
  }

  /** The batches start at the multiples of the step, and the last one is within a step of the end. */
  lemma {:induction false} LastStartIsMultiple(q: nat, n: nat, step: nat) returns (last: nat)
    requires step >= 1 && q * step < n
    ensures LastStart(q * step, n, step) == last * step && last * step < n <= last * step + step
    decreases n - q * step
  {
    if q * step + step >= n {
      last := q;
    } else {
      assert (q + 1) * step == q * step + step;
      last := LastStartIsMultiple(q + 1, n, step);
    }
  }

  lemma SameMultiple(a: nat, b: nat, step: nat)
    requires step >= 1 && a * step <= b * step < a * step + step
    ensures a == b
  {
    if a < b {
      MultiplesApart(a, b, step);
    } else if b < a {
      MultiplesApart(b, a, step);
    }
  }

  lemma {:induction false} MultiplesApart(a: nat, b: nat, step: nat)
    requires a < b
    ensures a * step + step <= b * step
    decreases b
  {
    if a < b - 1 {
      MultiplesApart(a, b - 1, step);
    }
    assert b * step == (b - 1) * step + step;
  }

  /** With single batches every group is alone, else only the last one, if it begins a batch. */
  lemma AloneIff(k: nat, n: nat, batchSize: nat)
    ensures var step := if batchSize < 1 then 1 else batchSize;
            Alone(k, n, StepOf(batchSize)) <==>
              k < n && (step == 1 || (k == n - 1 && exists q: nat :: k == q * step))
  {
    var step := if batchSize < 1 then 1 else batchSize;
    if k < n && k == n - 1 {
      assert 0 * step == 0;
      var last := LastStartIsMultiple(0, n, step);
      if q: nat :| k == q * step {
        SameMultiple(last, q, step);
      }
    }
  }

  function StepOf(batchSize: nat): (step: nat)
    ensures step >= 1
  {
    if batchSize < 1 then 1 else batchSize
  }

  /** The loop ends in the exception of a group that runs alone before the limit stops it. */
  ghost predicate Raises(responses: seq<Response>, batchSize: nat) {
    exists k :: 0 <= k < Counted(responses) && Alone(k, |responses|, StepOf(batchSize)) && responses[k].None?
  }

  /**
   The loop over batches; `responses` are what the groups answer or would answer. Apart from exceptions
   the counts do not depend on the batches.
   */
  method RefreshDirectly(groups: seq<Group>, responses: seq<Response>, batchSize: nat)
    returns (verdict: Verdict, t: Tally)
    requires |responses| == |groups|
    ensures verdict == Raised <==> Raises(responses, batchSize)
    ensures verdict != Raised ==> t == CountAll(groups[..Counted(responses)], responses[..Counted(responses)])
    ensures verdict == Completed <==> verdict != Raised && t.failed == 0 && t.processed == TotalIds(groups)
    ensures verdict == RateLimited <==> verdict !in {Completed, Raised} && Some(Refresh.RateLimited) in responses
  {
    var step := StepOf(batchSize);
    var n := |groups|;
    var batchStart, stopped := 0, false;
    t := Tally(0, 0, 0, 0);
    var counted := 0;
    while batchStart < n && !stopped
      invariant 0 <= counted <= n && counted <= batchStart
      invariant !stopped ==> counted == if batchStart < n then batchStart else n
      invariant batchStart < n ==> LastStart(0, n, step) == LastStart(batchStart, n, step)
      invariant NoStop(responses, counted, stopped)
      invariant forall k | 0 <= k < counted && Alone(k, n, step) :: responses[k].Some?
      invariant t == CountAll(groups[..counted], responses[..counted])
      decreases n - batchStart, !stopped
    {
      var batchEnd := if batchStart + step < n then batchStart + step else n;
      if batchEnd == batchStart + 1 && responses[batchStart].None? {
        return Raised, t;
      }
      t, counted, stopped := CountBatch(groups, responses, batchStart, batchEnd, t);
      batchStart := batchStart + step;
    }
    CountedIs(responses, counted, stopped);
    if t.failed != 0 || t.processed != TotalIds(groups) {
      verdict := if stopped then RateLimited else Failed;
    } else {
      verdict := Completed;
    }
  }

  /** Counts the groups of one batch up to the first that hit the limit. */
  method CountBatch(groups: seq<Group>, responses: seq<Response>, batchStart: nat, batchEnd: nat, before: Tally)
    returns (t: Tally, counted: nat, stopped: bool)
    requires |responses| == |groups| && batchStart < batchEnd <= |groups|
    requires NoStop(responses, batchStart, false)
    requires before == CountAll(groups[..batchStart], responses[..batchStart])
    ensures batchStart < counted <= batchEnd && (stopped || counted == batchEnd)
    ensures NoStop(responses, counted, stopped)
    ensures t == CountAll(groups[..counted], responses[..counted])
  {
    t, counted, stopped := before, batchStart, false;
    while counted < batchEnd && !stopped
      invariant batchStart <= counted <= batchEnd
      invariant counted == batchStart ==> !stopped
      invariant NoStop(responses, counted, stopped)
      invariant t == CountAll(groups[..counted], responses[..counted])
      decreases batchEnd - counted
    {
      var i := counted;
      assert groups[..i + 1][..i] == groups[..i] && responses[..i + 1][..i] == responses[..i];
      t := Count(t, |groups[i].ids|, responses[i]);
      stopped := responses[i] == Some(Refresh.RateLimited);
      counted := i + 1;
    }
  }

  /** `n` groups are counted; only the last of them may have hit the limit, and then the loop stops. */
  predicate NoStop(responses: seq<Response>, n: nat, stopped: bool) {
    && n <= |responses|
    && (stopped ==> n > 0 && responses[n - 1] == Some(Refresh.RateLimited))
    && (forall i | 0 <= i < n - (if stopped then 1 else 0) :: responses[i] != Some(Refresh.RateLimited))
  }

  lemma CountedIs(responses: seq<Response>, n: nat, stopped: bool)
    requires NoStop(responses, n, stopped) && (stopped || n == |responses|)
    ensures Counted(responses) == n
    ensures stopped <==> Some(Refresh.RateLimited) in responses
  {
  }

  lemma {:induction false} CountsAddUp(groups: seq<Group>, responses: seq<Response>)
    requires |responses| == |groups|
    ensures var t := CountAll(groups, responses);
            && t.processed == t.updated + t.failed + t.skipped
            && t.processed == TotalIds(groups)
  {
    if groups != [] {
      CountsAddUp(groups[..|groups| - 1], responses[..|groups| - 1]);
    }
  }

  /** How many organizations the groups with this answer have. */
  function AnsweredBy(groups: seq<Group>, responses: seq<Response>, answer: Response): nat
    requires |responses| == |groups|
  {
    if groups == [] then 0
    else
      (if responses[0] == answer then |groups[0].ids| else 0) + AnsweredBy(groups[1..], responses[1..], answer)
  }

  lemma {:induction false} AnsweredByLast(groups: seq<Group>, responses: seq<Response>, answer: Response)
    requires |responses| == |groups| && groups != []
    ensures var n := |groups| - 1;
            AnsweredBy(groups, responses, answer)
            == AnsweredBy(groups[..n], responses[..n], answer)
               + (if responses[n] == answer then |groups[n].ids| else 0)
  {
    var n := |groups| - 1;
    if n > 0 {
      assert groups[1..][..n - 1] == groups[..n][1..] && responses[1..][..n - 1] == responses[..n][1..];
      AnsweredByLast(groups[1..], responses[1..], answer);
    }
  }

  /**
   Organizations count as updated, as skipped (not found ones too) or as failed (exceptions and limits too) by the
   answer of their group.
   */
  lemma {:induction false} TallyFollowsAnswers(groups: seq<Group>, responses: seq<Response>)
    requires |responses| == |groups|
    ensures var t := CountAll(groups, responses);
            && t.updated == AnsweredBy(groups, responses, Some(Refresh.Updated))
            && t.skipped == AnsweredBy(groups, responses, Some(Refresh.NotFound))
                            + AnsweredBy(groups, responses, Some(Refresh.Skipped))
            && t.failed == AnsweredBy(groups, responses, None) + AnsweredBy(groups, responses, Some(Refresh.Failed))
                           + AnsweredBy(groups, responses, Some(Refresh.RateLimited))
  {
    if groups != [] {
      var n := |groups| - 1;
      TallyFollowsAnswers(groups[..n], responses[..n]);
      AnsweredByLast(groups, responses, None);
      AnsweredByLast(groups, responses, Some(Refresh.Updated));
      AnsweredByLast(groups, responses, Some(Refresh.NotFound));
      AnsweredByLast(groups, responses, Some(Refresh.Skipped));
      AnsweredByLast(groups, responses, Some(Refresh.Failed));
      AnsweredByLast(groups, responses, Some(Refresh.RateLimited));
    }
  }

  lemma {:induction false} FailedIff(groups: seq<Group>, responses: seq<Response>)
    requires |responses| == |groups| && forall k | 0 <= k < |groups| :: groups[k].ids != []
    ensures CountAll(groups, responses).failed == 0
            <==> forall k | 0 <= k < |groups| ::
              responses[k] in {Some(Refresh.Updated), Some(Refresh.NotFound), Some(Refresh.Skipped)}
  {
    if groups != [] {
      var n := |groups| - 1;
      FailedIff(groups[..n], responses[..n]);
      assert forall k | 0 <= k < n :: responses[..n][k] == responses[k];
      assert |groups[n].ids| > 0;
    }
  }

  /** A direct refresh counts as completed exactly when every group was updated, missing or skipped. */
  lemma CompletedIff(rows: seq<Row>, responses: seq<Response>)
    requires |responses| == |GroupsOf(rows)|
    ensures var groups, n := GroupsOf(rows), Counted(responses);
            var t := CountAll(groups[..n], responses[..n]);
            && t.processed == t.updated + t.failed + t.skipped
            && t.processed <= ValidRows(rows)
            && (t.failed == 0 && t.processed == ValidRows(rows) <==>
                  forall k | 0 <= k < |responses| ::
                    responses[k] in {Some(Refresh.Updated), Some(Refresh.NotFound), Some(Refresh.Skipped)})
  {
    var groups, n := GroupsOf(rows), Counted(responses);
    GroupsArePartition(rows);
    GroupsLoseNobody(rows);
    CountsAddUp(groups[..n], responses[..n]);
    FailedIff(groups[..n], responses[..n]);
    TotalIdsGrow(groups, n);
    if n == |responses| {
      assert groups[..n] == groups && responses[..n] == responses;
    } else {
      assert responses[..n][n - 1] == responses[n - 1];
    }
  }

  lemma {:induction false} TotalIdsGrow(groups: seq<Group>, n: nat)
    requires n <= |groups|
    ensures TotalIds(groups[..n]) <= TotalIds(groups)
    decreases |groups|
  {
    if n < |groups| {
      TotalIdsGrow(groups[..|groups| - 1], n);
      assert groups[..|groups| - 1][..n] == groups[..n];
    } else {
      assert groups[..n] == groups;
    }
  }
}
