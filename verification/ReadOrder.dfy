/** The order in which workers read the streams. */
module ReadOrder {
  import opened Options
  import opened JobStore

  /** Priority order of the streams: a smaller rank is read first. */
  function Rank(queue: Queue): nat {
    match queue
    case ManualHigh => 0
    case ManualNormal => 1
    case FullRefreshLow => 2
  }

  lemma {:induction false} WaitingFromIsOldest(log: seq<Entry>, queue: Queue, i: nat)
    requires i <= |log|
    ensures var found := WaitingFrom(log, queue, i);
            && (found.Some? ==>
                  && i <= found.value < |log| && log[found.value].queue == queue && log[found.value].state == Waiting
                  && forall k | i <= k < found.value :: !(log[k].queue == queue && log[k].state == Waiting))
            && (found.None? ==> forall k | i <= k < |log| :: !(log[k].queue == queue && log[k].state == Waiting))
    decreases |log| - i
  {
    if i < |log| && !(log[i].queue == queue && log[i].state == Waiting) {
      WaitingFromIsOldest(log, queue, i + 1);
    }
  }

  /** The entry read next is the oldest of the most urgent stream that has one; there is none only if nothing waits. */
  lemma NextEntryIsMostUrgent(log: seq<Entry>)
    ensures var next := NextEntry(log);
            && (next.Some? ==>
                  && next.value < |log| && log[next.value].state == Waiting
                  && forall k | 0 <= k < |log| && log[k].state == Waiting ::
                       Rank(log[next.value].queue) < Rank(log[k].queue)
                       || (log[next.value].queue == log[k].queue && next.value <= k))
            && (next.None? <==> forall k | 0 <= k < |log| :: log[k].state != Waiting)
  {
    WaitingFromIsOldest(log, ManualHigh, 0);
    WaitingFromIsOldest(log, ManualNormal, 0);
    WaitingFromIsOldest(log, FullRefreshLow, 0);
  }
}
