/** Runs in which every call is a `JobLifecycle` command, from an empty table: what the rows look
    like in every reachable state, and what is left when no command is in flight any more. */
module JobQuiescence {
  import opened Wrappers
  import opened JobContract
  import opened JobStorage
  import opened JobLifecycle
  import opened JobProtocol

  ghost predicate IsCommand(call: Call) {
    exists c: Command :: call == CallOf(c, call.job)
  }

  ghost predicate IsLifecycleRun(states: seq<System>, events: seq<Event>) {
    && IsRun(states, events)
    && states[0] == System(map[], map[])
    && forall i :: 0 <= i < |events| && events[i].Invoke? ==> IsCommand(events[i].call)
  }

  // ----- the invariant -----

  /** The paths lifecycle commands walk: an intermediate state is always followed by the step out of it. */
  predicate CommandPath(path: seq<JobState>) {
    || path == [Starting, Running] || path == [Running]
    || path == [Stopping, Cancelled] || path == [Cancelled]
    || path == [Completed] || path == [Failed]
  }

  ghost predicate CommandOk(a: Active) {
    && IsCommand(a.call)
    && PhaseOk(a.phase)
    && (a.phase.Walking? ==>
          && CommandPath(a.phase.path)
          && (a.phase.path[|a.phase.path| - 1] == Failed <==> a.call.error.Some?))
  }

  /** The columns agree with the status: the row is finished exactly when terminal, carries an error
      exactly when failed, and has a start time once it has run. */
  ghost predicate RowOk(row: Row) {
    match ResolveState(row.status)
    case None => false
    case Some(s) =>
      && (row.status == Value(s) || row.status == "queued")
      && (row.finishedAt.Some? <==> Terminal(s))
      && (row.error.Some? <==> s == Failed)
      && (s in {Running, Completed} ==> row.startedAt.Some?)
      && (s in {Created, Starting} ==> row.startedAt.None?)
  }

  /** `a` is about to move `job` out of the transient state `from`. */
  ghost predicate Leaves(a: Active, job: JobId, from: JobState) {
    a.call.job == job && a.phase.Walking? && a.phase.prev == Value(from) && |a.phase.path| == 1
  }

  ghost predicate InGoodHands(s: System, job: JobId, from: JobState)
    requires job in s.rows
  {
    s.rows[job].status == Value(from) ==> exists id :: id in s.calls && Leaves(s.calls[id], job, from)
  }

  ghost predicate CommandInv(s: System) {
    && (forall id :: id in s.calls ==> CommandOk(s.calls[id]))
    && (forall job :: job in s.rows ==> RowOk(s.rows[job]) && InGoodHands(s, job, Starting) && InGoodHands(s, job, Stopping))
  }

  lemma {:induction false} ReadKeepsCommandOk(call: Call, row: Option<Row>)
    requires IsCommand(call)
    ensures CommandOk(Active(call, AfterRead(call, row)))
  {
    var c: Command :| call == CallOf(c, call.job);
    CallTarget(c, call.job);
    var p := AfterRead(call, row);
    if p.Walking? {
      assert p.path == Path(p.local, TargetOf(c));
    }
  }

  lemma {:induction false} AdvanceKeepsCommandOk(a: Active, row: Option<Row>, now: Time)
    requires CommandOk(a)
    ensures CommandOk(a.(phase := Advance(a.call, a.phase, row, now).1))
  {
    AdvanceWritesLegally(a.call, a.phase, row, now);
    if a.phase.Reading? {
      ReadKeepsCommandOk(a.call, row);
    }
    if a.phase.Walking? {
      assert |a.phase.path| == 2 ==> a.phase.path[1..] == [a.phase.path[1]];
    }
  }

  lemma {:induction false} AdvanceKeepsRowOk(a: Active, row: Row, now: Time)
    requires CommandOk(a) && RowOk(row)
    ensures var (row', _) := Advance(a.call, a.phase, Some(row), now);
            row'.Some? && RowOk(row'.value)
  {
    AdvanceWritesLegally(a.call, a.phase, Some(row), now);
  }

  /** A write into a transient state leaves its writer about to move on. */
  lemma {:induction false} WriterMovesOn(a: Active, row: Row, now: Time, t: JobState)
    requires CommandOk(a) && Hits(a.phase, Some(row)) && t in {Starting, Stopping}
    ensures var (row', p') := Advance(a.call, a.phase, Some(row), now);
            row'.Some? && row'.value.status == Value(t) ==> Leaves(a.(phase := p'), a.call.job, t)
  {
    ValueRoundTrip(t);
    ValueRoundTrip(a.phase.path[0]);
  }

  lemma {:induction false} StepKeepsGoodHands(s: System, e: Event, job: JobId, t: JobState)
    requires CommandInv(s) && Enabled(s, e) && e.Step? && job in s.rows && t in {Starting, Stopping}
    ensures job in Next(s, e).rows && InGoodHands(Next(s, e), job, t)
  {
    var a, s' := s.calls[e.id], Next(s, e);
    AdvanceWritesLegally(a.call, a.phase, Lookup(s.rows, a.call.job), e.now);
    if s'.rows[job].status == Value(t) {
      if a.call.job == job && Hits(a.phase, Some(s.rows[job])) {
        WriterMovesOn(a, s.rows[job], e.now, t);
        assert Leaves(s'.calls[e.id], job, t);
      } else {
        var id :| id in s.calls && Leaves(s.calls[id], job, t);
        assert Leaves(s'.calls[id], job, t);
      }
    }
  }

  lemma {:induction false} OthersKeepGoodHands(s: System, e: Event, job: JobId, t: JobState)
    requires CommandInv(s) && Enabled(s, e) && !e.Step? && job in s.rows && t in {Starting, Stopping}
    ensures job in Next(s, e).rows && InGoodHands(Next(s, e), job, t)
  {
    var s' := Next(s, e);
    if s'.rows[job].status == Value(t) {
      var id :| id in s.calls && Leaves(s.calls[id], job, t);
      assert Leaves(s'.calls[id], job, t);
    }
  }

  lemma {:induction false} StepKeepsCommandInv(s: System, e: Event)
    requires CommandInv(s) && Enabled(s, e)
    requires e.Invoke? ==> IsCommand(e.call)
    ensures CommandInv(Next(s, e))
  {
    var s' := Next(s, e);
    match e {
      case CreateJob(_, _) =>
        forall job, t | job in s.rows && t in {Starting, Stopping} ensures InGoodHands(s', job, t) {
          OthersKeepGoodHands(s, e, job, t);
        }
      case Invoke(_, _) =>
        forall job, t | job in s.rows && t in {Starting, Stopping} ensures InGoodHands(s', job, t) {
          OthersKeepGoodHands(s, e, job, t);
        }
      case Step(id, now) =>
        var a := s.calls[id];
        AdvanceKeepsCommandOk(a, Lookup(s.rows, a.call.job), now);
        if a.call.job in s.rows {
          AdvanceKeepsRowOk(a, s.rows[a.call.job], now);
        }
        forall job, t | job in s.rows && t in {Starting, Stopping} ensures InGoodHands(s', job, t) {
          StepKeepsGoodHands(s, e, job, t);
        }
    }
  }

  lemma {:induction false} RunKeepsCommandInv(states: seq<System>, events: seq<Event>, k: nat)
    requires IsLifecycleRun(states, events) && k < |states|
    ensures CommandInv(states[k])
  {
    if k > 0 {
      RunKeepsCommandInv(states, events, k - 1);
      StepKeepsCommandInv(states[k - 1], events[k - 1]);
    }
  }

  // ----- theorems -----

  /** In every reachable state `finished_at` is set iff the status is terminal and `error` is
      non-null iff the job failed. */
  lemma {:induction false} ColumnsAgreeWithStatus(states: seq<System>, events: seq<Event>, k: nat, job: JobId)
    requires IsLifecycleRun(states, events) && k < |states| && job in states[k].rows
    ensures RowOk(states[k].rows[job])
  {
    RunKeepsCommandInv(states, events, k);
  }

  lemma {:induction false} FailureCarriesItsError(s: System, e: Event, job: JobId)
    requires CommandInv(s) && Inv(s) && Enters(s, e, job, Failed)
    ensures e.Step? && e.id in s.calls && s.calls[e.id].call.error.Some?
    ensures Next(s, e).rows[job].error == s.calls[e.id].call.error
  {
    EntryIsStamped(s, e, job, Failed);
    var a := s.calls[e.id];
    AdvanceWritesLegally(a.call, a.phase, Lookup(s.rows, job), e.now);
    ValueRoundTrip(a.phase.path[0]);
  }

  /** A failed job shows, from the step that failed it on, the error of the call that took this step. */
  lemma {:induction false} ErrorsAreKept(states: seq<System>, events: seq<Event>, i: nat, k: nat, job: JobId)
    requires IsLifecycleRun(states, events) && i < k < |states| && Enters(states[i], events[i], job, Failed)
    ensures events[i].Step? && events[i].id in states[i].calls && job in states[k].rows
    ensures states[i].calls[events[i].id].call.error.Some?
    ensures states[k].rows[job].error == states[i].calls[events[i].id].call.error
  {
    RunKeepsCommandInv(states, events, i);
    RunIsSafe(states, events, i);
    FailureCarriesItsError(states[i], events[i], job);
    StampsStayOn(states, events, i + 1, k, job);
  }

  /** Every call on this job has run to completion; calls on other jobs may be anywhere. */
  ghost predicate Quiet(s: System, job: JobId) {
    forall id :: id in s.calls && s.calls[id].call.job == job ==> Finished(s.calls[id].phase)
  }

  /** When no command on it is in flight, a job is not left in a transient state. */
  lemma {:induction false} QuiescentJobsAreSettled(states: seq<System>, events: seq<Event>, k: nat, job: JobId)
    requires IsLifecycleRun(states, events) && k < |states| && Quiet(states[k], job) && job in states[k].rows
    ensures ResolveState(states[k].rows[job].status) in {Some(Created), Some(Running), Some(Completed), Some(Failed), Some(Cancelled)}
  {
    RunKeepsCommandInv(states, events, k);
    assert RowOk(states[k].rows[job]) && InGoodHands(states[k], job, Starting) && InGoodHands(states[k], job, Stopping);
  }

  /** The stop command `id` read `job` as running: either it still holds its first compare-and-set
      against "running", or the job has left that state for good. */
  ghost predicate StopPursues(s: System, id: CallId, job: JobId) {
    && id in s.calls && s.calls[id].call.job == job && job in s.rows
    && 2 <= RankOf(s.rows[job])
    && (RankOf(s.rows[job]) == 2 ==>
          && s.rows[job].status == Value(Running)
          && s.calls[id].phase == Walking(Running, [Stopping, Cancelled], Value(Running)))
  }

  lemma {:induction false} StopKeepsPursuing(s: System, e: Event, id: CallId, job: JobId)
    requires CommandInv(s) && Inv(s) && Enabled(s, e) && StopPursues(s, id, job)
    ensures StopPursues(Next(s, e), id, job)
  {
    StepIsSafe(s, e);
    ValueRoundTrip(Running);
    if Wrote(s, e, job) {
      LegalClimbs(ResolveState(s.rows[job].status).value, ResolveState(Next(s, e).rows[job].status).value);
    }
  }

  lemma {:induction false} StopStartsPursuing(s: System, e: Event, job: JobId)
    requires CommandInv(s) && Enabled(s, e) && e.Step? && job in s.rows
    requires s.calls[e.id] == Active(CallOf(RequestStop, job), Reading)
    requires ResolveState(s.rows[job].status) == Some(Running)
    ensures StopPursues(Next(s, e), e.id, job)
  {
    CallTarget(RequestStop, job);
    assert RowOk(s.rows[job]);
  }

  lemma {:induction false} StopPursuesNext(states: seq<System>, events: seq<Event>, k: nat, id: CallId, job: JobId)
    requires IsLifecycleRun(states, events) && k < |events| && StopPursues(states[k], id, job)
    ensures StopPursues(states[k + 1], id, job)
  {
    RunKeepsCommandInv(states, events, k);
    RunIsSafe(states, events, k);
    StopKeepsPursuing(states[k], events[k], id, job);
  }

  lemma {:induction false} StopPursuesOn(states: seq<System>, events: seq<Event>, i: nat, k: nat, id: CallId, job: JobId)
    requires IsLifecycleRun(states, events) && i <= k < |states| && StopPursues(states[i], id, job)
    ensures StopPursues(states[k], id, job)
  {
    if i < k {
      StopPursuesOn(states, events, i, k - 1, id, job);
      StopPursuesNext(states, events, k - 1, id, job);
    }
  }

  /** Quiescence: if some stop command read the job as running, then once every command on that
      job has run to completion the job is terminal, whatever else raced with it. */
  lemma {:induction false} StopReachesTerminal(states: seq<System>, events: seq<Event>, i: nat, k: nat, job: JobId)
    requires IsLifecycleRun(states, events) && i < k < |states| && Quiet(states[k], job)
    requires events[i].Step? && job in states[i].rows && ResolveState(states[i].rows[job].status) == Some(Running)
    requires states[i].calls[events[i].id] == Active(CallOf(RequestStop, job), Reading)
    ensures job in states[k].rows && TerminalStatus(states[k].rows[job].status)
  {
    RunKeepsCommandInv(states, events, i);
    StopStartsPursuing(states[i], events[i], job);
    StopPursuesOn(states, events, i + 1, k, events[i].id, job);
    QuiescentJobsAreSettled(states, events, k, job);
  }
}
