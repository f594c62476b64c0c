/** The job commands (pwnproxy/services/jobs/lifecycle.py): the only callers whose interleavings
    module JobProtocol takes as lifecycle runs. */
module JobLifecycle {
  import opened Wrappers
  import opened JobContract
  import opened JobStorage

  datatype Command = Start | RequestStop | Complete | Fail(error: string) | Recovery

  function CallOf(c: Command, job: JobId): Call {
    match c
    case Start => Call(job, "running", None, None)
    case RequestStop => Call(job, "cancelled", None, None)
    case Complete => Call(job, "completed", None, None)
    case Fail(e) => Call(job, "failed", Some(e), None)
    case Recovery => StaleCall(job)
  }

  function TargetOf(c: Command): (t: JobState)
    ensures t in {Running, Cancelled, Completed, Failed}
  {
    match c
    case Start => Running
    case RequestStop => Cancelled
    case Complete => Completed
    case Fail(_) => Failed
    case Recovery => Failed
  }

  lemma {:induction false} CallTarget(c: Command, job: JobId)
    ensures FromValue(CallOf(c, job).target) == Some(TargetOf(c))
    ensures CallOf(c, job).expected.Some? ==> FromValue(CallOf(c, job).expected.value) == Some(Running)
  {
    ValueRoundTrip(TargetOf(c));
    ValueRoundTrip(Running);
  }

  class JobLifecycle {
    const storage: JobStorage

    constructor (storage: JobStorage)
      ensures this.storage == storage
    {
      this.storage := storage;
    }

    /** What a command run alone does to its job: it reaches its target, finds it reached already,
        or raises without writing. */
    method Run(c: Command, job: JobId, clock: nat -> Time) returns (r: Result<string, JobError>)
      requires !c.Recovery?
      modifies storage`rows
      ensures job !in old(storage.rows) ==> r == Failure(NotFound) && storage.rows == old(storage.rows)
      ensures job in old(storage.rows) ==>
                var before := old(storage.rows)[job];
                match ResolveState(before.status)
                case None => r == Failure(InvalidStatus) && storage.rows == old(storage.rows)
                case Some(current) =>
                  if current == TargetOf(c) then
                    r == Success(Value(current)) && storage.rows == old(storage.rows)
                  else if Reachable(current, TargetOf(c)) && !Terminal(current) then
                    && r == Success(Value(TargetOf(c)))
                    && job in storage.rows && storage.rows == old(storage.rows)[job := storage.rows[job]]
                    && Landed(CallOf(c, job), before, storage.rows[job], TargetOf(c), clock(2))
                  else r == Failure(InvalidTransition) && storage.rows == old(storage.rows)
    {
      CallTarget(c, job);
      if job in storage.rows {
        SoloIsAllOrNothing(CallOf(c, job), storage.rows[job], clock);
        assert storage.rows == storage.rows[job := storage.rows[job]];
      }
      r := storage.TransitionStatus(CallOf(c, job), clock);
    }

    /** `safe_request_stop` and `safe_fail`: what `Run` does to the job, with every exception swallowed;
        where there was one, nothing was written. */
    method SafeRun(c: Command, job: JobId, clock: nat -> Time)
      requires c.RequestStop? || c.Fail?
      modifies storage`rows
      ensures job !in old(storage.rows) ==> storage.rows == old(storage.rows)
      ensures job in old(storage.rows) ==>
                var before := old(storage.rows)[job];
                var current := ResolveState(before.status);
                if current.Some? && current.value != TargetOf(c) && Reachable(current.value, TargetOf(c)) && !Terminal(current.value) then
                  && job in storage.rows && storage.rows == old(storage.rows)[job := storage.rows[job]]
                  && Landed(CallOf(c, job), before, storage.rows[job], TargetOf(c), clock(2))
                else storage.rows == old(storage.rows)
    {
      var _ := Run(c, job, clock);
    }

    method RecoverStale(clock: JobId -> nat -> Time) returns (count: nat)
      modifies storage`rows
      ensures count == |Stale(old(storage.rows))|
      ensures AllRecovered(old(storage.rows), storage.rows, clock)
    {
      count := storage.MarkStaleRunningFailed(clock);
    }
  }
}
