/**
 Weights of the children of a parent in a list of jobs: all of them, the live ones, and those that ended with each
 status; and how these sums follow the list.
 */
module ChildWeights {
  import opened Options
  import opened JobStore
  import opened JobProtocol

  // ---- weights of the children of a parent ----

  datatype Measure =
    | EnqueuedWeight(parent: JobId)                  // all children
    | LiveWeight(parent: JobId)                      // children not settled yet
    | LiveCount(parent: JobId)                       // how many they are
    | SettledWeight(parent: JobId, status: Status)   // children that ended with this status
    | EndedWeight(parent: JobId)                     // children that ended in any way

  function Weigh(m: Measure, job: Job): nat {
    if job.parent != Some(m.parent) then 0 else
    match m
    case EnqueuedWeight(_) => EffectiveWeight(job.progressWeight)
    case LiveWeight(_) => if Live(job) then EffectiveWeight(job.progressWeight) else 0
    case LiveCount(_) => if Live(job) then 1 else 0
    case SettledWeight(_, status) => if job.status == status then EffectiveWeight(job.progressWeight) else 0
    case EndedWeight(_) => if Live(job) then 0 else EffectiveWeight(job.progressWeight)
  }

  function Total(m: Measure, jobs: seq<Job>): nat {
    if jobs == [] then 0 else Total(m, jobs[..|jobs| - 1]) + Weigh(m, jobs[|jobs| - 1])
  }

  lemma TotalAppend(m: Measure, jobs: seq<Job>, job: Job)
    ensures Total(m, jobs + [job]) == Total(m, jobs) + Weigh(m, job)
  {
    assert (jobs + [job])[..|jobs|] == jobs;
  }

  lemma {:induction false} TotalUpdate(m: Measure, jobs: seq<Job>, i: nat, job: Job)
    requires i < |jobs|
    ensures Total(m, jobs[i := job]) == Total(m, jobs) - Weigh(m, jobs[i]) + Weigh(m, job)
  {
    var last := |jobs| - 1;
    if i == last {
      assert jobs[i := job][..last] == jobs[..last];
    } else {
      assert jobs[i := job][..last] == jobs[..last][i := job];
      TotalUpdate(m, jobs[..last], i, job);
    }
  }

  /** The queue moved the job around without settling it. */
  predicate Alike(job: Job, job': Job) {
    && job'.parent == job.parent && job'.progressWeight == job.progressWeight && job'.key == job.key
    && (job'.status == job.status || (Live(job) && Live(job')))
  }

  predicate AllAlike(jobs: seq<Job>, jobs': seq<Job>) {
    |jobs'| == |jobs| && forall i | 0 <= i < |jobs| :: Alike(jobs[i], jobs'[i])
  }

  lemma {:induction false} AlikeTotal(m: Measure, jobs: seq<Job>, jobs': seq<Job>)
    requires AllAlike(jobs, jobs') && (m.SettledWeight? ==> Terminal(m.status))
    ensures Total(m, jobs') == Total(m, jobs)
  {
    if jobs != [] {
      var last := |jobs| - 1;
      assert Alike(jobs[last], jobs'[last]);
      AlikeTotal(m, jobs[..last], jobs'[..last]);
    }
  }

  /** Every child is either live or has ended, and weighs at least one. */
  lemma {:induction false} WeightsSplit(parent: JobId, jobs: seq<Job>)
    ensures Total(EnqueuedWeight(parent), jobs) == Total(EndedWeight(parent), jobs) + Total(LiveWeight(parent), jobs)
    ensures Total(LiveCount(parent), jobs) <= Total(LiveWeight(parent), jobs)
  {
    if jobs != [] {
      WeightsSplit(parent, jobs[..|jobs| - 1]);
    }
  }

  /** A child that ended did so with exactly one of the five statuses. */
  lemma {:induction false} EndedSplit(parent: JobId, jobs: seq<Job>)
    ensures Total(EndedWeight(parent), jobs)
            == Total(SettledWeight(parent, Success), jobs) + Total(SettledWeight(parent, Failed), jobs)
               + Total(SettledWeight(parent, RateLimited), jobs) + Total(SettledWeight(parent, NotFound), jobs)
               + Total(SettledWeight(parent, Skipped), jobs)
  {
    if jobs != [] {
      EndedSplit(parent, jobs[..|jobs| - 1]);
    }
  }

  lemma {:induction false} ChildlessTotal(m: Measure, jobs: seq<Job>)
    requires forall i | 0 <= i < |jobs| :: jobs[i].parent != Some(m.parent)
    ensures Total(m, jobs) == 0
  {
    if jobs != [] {
      ChildlessTotal(m, jobs[..|jobs| - 1]);
    }
  }

  lemma {:induction false} LiveCountIsCardinality(parent: JobId, jobs: seq<Job>)
    ensures |LiveChildren(parent, jobs)| == Total(LiveCount(parent), jobs)
  {
    if jobs != [] {
      var last := |jobs| - 1;
      LiveCountIsCardinality(parent, jobs[..last]);
      if jobs[last].parent == Some(parent) && Live(jobs[last]) {
        assert LiveChildren(parent, jobs) == LiveChildren(parent, jobs[..last]) + {last};
      } else {
        assert LiveChildren(parent, jobs) == LiveChildren(parent, jobs[..last]);
      }
    }
  }

  // ---- the jobs before an attempt, and its own ----

  lemma {:induction false} TotalSplit(m: Measure, before: seq<Job>, own: seq<Job>)
    ensures Total(m, before + own) == Total(m, before) + Total(m, own)
  {
    if own == [] {
      assert before + own == before;
    } else {
      var last := |own| - 1;
      assert (before + own)[..|before| + last] == before + own[..last];
      TotalSplit(m, before, own[..last]);
    }
  }

  lemma TotalAround(m: Measure, jobs: seq<Job>, n: nat)
    requires n <= |jobs|
    ensures Total(m, jobs) == Total(m, jobs[..n]) + Total(m, jobs[n..])
  {
    assert jobs[..n] + jobs[n..] == jobs;
    TotalSplit(m, jobs[..n], jobs[n..]);
  }

  lemma UpdateAround(jobs: seq<Job>, n: nat, j: JobId, job: Job)
    requires n <= |jobs| && j < |jobs|
    ensures jobs[j := job][..n] == if j < n then jobs[..n][j := job] else jobs[..n]
    ensures jobs[j := job][n..] == if j < n then jobs[n..] else jobs[n..][j - n := job]
  {
  }

  lemma AppendAround(jobs: seq<Job>, n: nat, job: Job)
    requires n <= |jobs|
    ensures (jobs + [job])[..n] == jobs[..n]
    ensures (jobs + [job])[n..] == jobs[n..] + [job]
  {
  }
}
