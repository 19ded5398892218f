/** The deterministic test coordinator's job queue. Jobs are resumables,
    identified by number; the queue is a double-ended queue with the next
    job at index 0. Running a job (`run_once`) is modelled as taking it off
    the front of the queue; what the job then does is outside this model. */
module TestCoordinator {
  import opened Wrappers
  import Seqs

  type Job = nat

  datatype CoordinatorError = JobsEmpty | BadCast

  /** `has_job()`. */
  function HasJob(jobs: seq<Job>): (b: bool)
    ensures b <==> jobs != []
    ensures !b ==> multiset(jobs) == multiset{}
  {
    |jobs| > 0
  }

  /** `next_job<T>()`: the front job, viewed as a `T`; `isA` says which jobs
      the dynamic cast to `T` accepts. */
  function NextJob(jobs: seq<Job>, isA: Job -> bool): (r: Result<Job, CoordinatorError>)
    ensures r == Failure(JobsEmpty) <==> !HasJob(jobs)
    ensures r.Success? <==> HasJob(jobs) && isA(jobs[0])
    ensures r.Success? ==> r.value == jobs[0]
    ensures HasJob(jobs) && !isA(jobs[0]) ==> r == Failure(BadCast)
  {
    if |jobs| == 0 then Failure(JobsEmpty)
    else if isA(jobs[0]) then Success(jobs[0])
    else Failure(BadCast)
  }

  /** `run_once()`: the front job runs and leaves the queue. */
  function RunOnce(jobs: seq<Job>): (r: Result<(Job, seq<Job>), CoordinatorError>)
    ensures r.Failure? <==> !HasJob(jobs)
    ensures r.Success? ==> [r.value.0] + r.value.1 == jobs
  {
    if |jobs| == 0 then Failure(JobsEmpty) else Success((jobs[0], jobs[1..]))
  }

  /** What `prioritize` receives: a null handle, an actor that is not a
      resumable, or a resumable job. */
  datatype Handle = NullHandle | NotResumable(actor: nat) | Resumable(job: Job)

  /** `prioritize(x)`: moves the first occurrence of `x` to the front and
      reports whether `x` was in the queue. */
  function Prioritize(jobs: seq<Job>, x: Handle): (r: (bool, seq<Job>))
    ensures r.0 <==> x.Resumable? && x.job in jobs
    ensures !r.0 ==> r.1 == jobs
    ensures r.0 ==> && |r.1| == |jobs| && r.1[0] == x.job
                    && multiset(r.1) == multiset(jobs)
                    && r.1[1..] == Seqs.RemoveAt(jobs, Seqs.Find(jobs, x.job))
    ensures r.0 && jobs[0] == x.job ==> r.1 == jobs
  {
    if !x.Resumable? then (false, jobs)
    else
      var i := Seqs.Find(jobs, x.job);
      if i == |jobs| then (false, jobs)
      else if i == 0 then (true, jobs)
      else (true, Seqs.RotateToFront(jobs, i))
  }

  /** Prioritizing the front job is the identity; otherwise the other jobs
      keep their relative order. */
  lemma PrioritizeKeepsOrder(jobs: seq<Job>, j: Job, k: nat)
    requires j in jobs && k < |jobs| && jobs[k] == j && j !in jobs[..k]
    ensures Prioritize(jobs, Resumable(j)).1 == [j] + jobs[..k] + jobs[k + 1..]
  {
    assert forall m :: 0 <= m < k ==> jobs[..k][m] == jobs[m];
    if k == 0 {
      assert jobs == [j] + jobs[1..];
    }
  }

  /** The jobs `pred` rejects. */
  function Rejects(pred: Job -> bool): Job -> bool {
    (j: Job) => !pred(j)
  }

  /** No job before `i` matches, so no matching job comes before it. */
  lemma NoneBefore(q: seq<Job>, i: nat, pred: Job -> bool)
    requires i <= |q|
    requires forall j :: 0 <= j < i ==> !pred(q[j])
    ensures Seqs.Filter(q[..i], pred) == []
  {
    assert forall j :: 0 <= j < |q[..i]| ==> !pred(q[..i][j]);
    Seqs.FilterAllOrNone(q[..i], pred);
  }

  /** Taking out the first matching job moves it from the matching jobs to
      the run list. */
  lemma TakeFirstMatch(q: seq<Job>, i: nat, pred: Job -> bool)
    requires i < |q| && pred(q[i])
    requires forall j :: 0 <= j < i ==> !pred(q[j])
    ensures Seqs.Filter(q, pred) == [q[i]] + Seqs.Filter(Seqs.RemoveAt(q, i), pred)
  {
    NoneBefore(q, i, pred);
    Seqs.FilterSplit(q, i, pred);
    Seqs.FilterRemoveAt(q, i, pred);
  }

  /** One turn of the loop keeps both loop invariants. */
  lemma LoopStep(jobs: seq<Job>, ran: seq<Job>, q: seq<Job>, i: nat, pred: Job -> bool)
    requires i < |q| && pred(q[i])
    requires forall j :: 0 <= j < i ==> !pred(q[j])
    requires Seqs.Filter(jobs, pred) == ran + Seqs.Filter(q, pred)
    requires Seqs.Filter(jobs, Rejects(pred)) == Seqs.Filter(q, Rejects(pred))
    ensures Seqs.Filter(jobs, pred) == (ran + [q[i]]) + Seqs.Filter(Seqs.RemoveAt(q, i), pred)
    ensures Seqs.Filter(jobs, Rejects(pred)) == Seqs.Filter(Seqs.RemoveAt(q, i), Rejects(pred))
  {
    TakeFirstMatch(q, i, pred);
    Seqs.FilterRemoveFailing(q, i, Rejects(pred));
    var rest := Seqs.Filter(Seqs.RemoveAt(q, i), pred);
    assert ran + ([q[i]] + rest) == (ran + [q[i]]) + rest;
  }

  /** Running the job at `i` after rotating it to the front (no rotation
      when it is already there) leaves the queue without it. */
  lemma RotateThenRun(q: seq<Job>, i: nat)
    requires i < |q|
    ensures var rotated := if i != 0 then Seqs.RotateToFront(q, i) else q;
      RunOnce(rotated) == Success((q[i], Seqs.RemoveAt(q, i)))
  {
    if i == 0 {
      assert Seqs.RemoveAt(q, 0) == q[1..];
    }
  }

  /** `run_jobs_filtered(pred)`: while some job satisfies `pred`, the first
      such job is rotated to the front and run. Returns the jobs run, the
      queue left behind and the count the source returns. */
  method RunJobsFiltered(jobs: seq<Job>, pred: Job -> bool) returns (ran: seq<Job>, left: seq<Job>, count: nat)
    ensures ran == Seqs.Filter(jobs, pred)
    ensures left == Seqs.Filter(jobs, Rejects(pred))
    ensures count == |ran|
    ensures forall k :: 0 <= k < |left| ==> !pred(left[k])
  {
    var q := jobs;
    ran := [];
    count := 0;
    while |q| > 0
      invariant Seqs.Filter(jobs, pred) == ran + Seqs.Filter(q, pred)
      invariant Seqs.Filter(jobs, Rejects(pred)) == Seqs.Filter(q, Rejects(pred))
      invariant count == |ran|
      decreases |q|
    {
      var i := Seqs.FindIf(q, pred);
      if i == |q| {
        Seqs.FilterAllOrNone(q, pred);
        Seqs.FilterAllOrNone(q, Rejects(pred));
        return ran, q, count;
      }
      LoopStep(jobs, ran, q, i, pred);
      RotateThenRun(q, i);
      if i != 0 {
        q := Seqs.RotateToFront(q, i);
      }
      var run := RunOnce(q);
      ran := ran + [run.value.0];
      q := run.value.1;
      count := count + 1;
    }
    Seqs.FilterAllOrNone(q, Rejects(pred));
    left := q;
  }
}
