/** The jobs table and its status writes (pwnproxy/services/crawler/storage.py).
    The atomic database operations of one `transition_status` call are the functions
    `AfterRead`, `CompareAndSet` and `AfterWrite`; `Advance` is one of them, chosen by the phase
    the call is in.  The class runs a whole call without interference; module JobProtocol
    interleaves the same steps of many calls. */
module JobStorage {
  import opened Wrappers
  import opened JobContract

  type JobId = nat

  datatype Row = Row(status: string, error: Option<string>, startedAt: Option<Time>, finishedAt: Option<Time>)

  /** The `error` argument of a write: `_UNSET` leaves the column alone. */
  datatype ErrorArg = Unset | Set(value: Option<string>)

  /** The arguments of one `transition_status` call. */
  datatype Call = Call(job: JobId, target: string, error: Option<string>, expected: Option<string>)

  /** A non-empty list of states still to persist. */
  type Steps = path: seq<JobState> | |path| > 0 witness [Created]

  /** Where a call is between two of its database operations.  `path[0]` has passed
      the transition check from `local` and is about to be written over `prev`. */
  datatype Phase =
    | Reading
    | Walking(local: JobState, path: Steps, prev: string)
    | Lost
    | Returned(status: string)
    | Raised(error: JobError)

  predicate Finished(p: Phase) {
    p.Returned? || p.Raised?
  }

  // ----- one row -----

  function Write(row: Row, status: string, error: ErrorArg, now: Time): Row {
    Row(status,
        match error case Unset => row.error case Set(e) => e,
        if status == "running" then Some(now) else row.startedAt,
        if status in {"completed", "failed", "stopped", "cancelled"} then Some(now) else row.finishedAt)
  }

  function CompareAndSet(row: Row, expected: string, status: string, error: ErrorArg, now: Time): Option<Row> {
    if row.status == expected then Some(Write(row, status, error, now)) else None
  }

  // ----- the steps of a call -----

  /** The states to persist, the implicit intermediate one first. */
  function Path(current: JobState, target: JobState): Steps {
    (if target == Running && current == Created then [Starting] else [])
    + (if target == Cancelled && (current == Running || current == Starting) then [Stopping] else [])
    + [target]
  }

  /** `job_transition(job, path[0])`, done in memory just before the write. */
  function CheckNext(local: JobState, path: Steps, prev: string): Phase {
    if path[0] in Legal(local) then Walking(local, path, prev) else Raised(InvalidTransition)
  }

  function AfterRead(call: Call, row: Option<Row>): Phase {
    if row.None? then Raised(NotFound)
    else
      match (ResolveState(row.value.status), FromValue(call.target))
      case (None, _) => Raised(InvalidStatus)
      case (_, None) => Raised(InvalidStatus)
      case (Some(current), Some(target)) =>
        if current == target then Returned(Value(current))
        else if call.expected.Some? && FromValue(call.expected.value).None? then Raised(InvalidStatus)
        else if call.expected.Some? && FromValue(call.expected.value) != Some(current) then Returned(Value(current))
        else if Terminal(current) then Raised(InvalidTransition)
        else CheckNext(current, Path(current, target), row.value.status)
  }

  function StepError(call: Call, path: Steps): ErrorArg {
    if |path| == 1 then Set(call.error) else Unset
  }

  function AfterWrite(path: Steps): Phase {
    if |path| == 1 then Returned(Value(path[0]))
    else CheckNext(path[0], path[1..], Value(path[0]))
  }

  function AfterReread(row: Option<Row>): Phase {
    match row
    case None => Raised(Disappeared)
    case Some(r) => Returned(r.status)
  }

  /** One atomic database operation of a call, with the in-memory work up to the next one. */
  function Advance(call: Call, p: Phase, row: Option<Row>, now: Time): (r: (Option<Row>, Phase))
    ensures r.0.Some? <==> row.Some?
  {
    match p
    case Reading => (row, AfterRead(call, row))
    case Lost => (row, AfterReread(row))
    case Walking(local, path, prev) =>
      var written := if row.Some? then CompareAndSet(row.value, prev, Value(path[0]), StepError(call, path), now) else None;
      if written.Some? then (written, AfterWrite(path)) else (row, Lost)
    case _ => (row, p)
  }

  /** Database operations a call can still issue. */
  function Budget(p: Phase): nat {
    match p
    case Reading => 4
    case Walking(_, path, _) => |path| + 1
    case Lost => 1
    case _ => 0
  }

  /** However the row changes under it, a call issues at most four database operations. */
  lemma {:induction false} AdvanceIsWaitFree(call: Call, p: Phase, row: Option<Row>, now: Time)
    requires !Finished(p)
    ensures Budget(Advance(call, p, row, now).1) < Budget(p)
  {
  }

  // ----- a call without interference -----

  function Solo(call: Call, p: Phase, row: Option<Row>, clock: nat -> Time): (r: (Option<Row>, Phase))
    ensures Finished(r.1)
    decreases Budget(p)
  {
    if Finished(p) then (row, p)
    else
      AdvanceIsWaitFree(call, p, row, clock(Budget(p)));
      var (row', p') := Advance(call, p, row, clock(Budget(p)));
      Solo(call, p', row', clock)
  }

  /** One legal step of an uninterrupted call is a write. */
  lemma {:induction false} SoloStep(call: Call, local: JobState, path: Steps, row: Row, clock: nat -> Time)
    requires path[0] in Legal(local)
    ensures var written := Write(row, Value(path[0]), StepError(call, path), clock(|path| + 1));
            Solo(call, CheckNext(local, path, row.status), Some(row), clock) == Solo(call, AfterWrite(path), Some(written), clock)
  {
    var p := Walking(local, path, row.status);
    assert Advance(call, p, Some(row), clock(Budget(p))).1 == AfterWrite(path);
  }

  /** The transitions a single call can carry out: those whose first persisted step is legal. */
  predicate Reachable(current: JobState, target: JobState) {
    match target
    case Created => false
    case Starting => current == Created
    case Running => current == Created || current == Starting
    case Stopping => current == Starting || current == Running
    case Completed => current == Running
    case Failed => current == Starting || current == Running || current == Stopping
    case Cancelled => !Terminal(current)
  }

  lemma {:induction false} PathLegality(current: JobState, target: JobState)
    requires !Terminal(current)
    ensures var path := Path(current, target);
            && |path| <= 2 && path[|path| - 1] == target
            && (path[0] in Legal(current) <==> Reachable(current, target))
            && (|path| == 2 ==> path[1] in Legal(path[0]))
  {
  }

  predicate TerminalStatus(status: string) {
    var s := ResolveState(status);
    s.Some? && Terminal(s.value)
  }

  /** The stamps of a row whose status was written at `now`: a start time when it starts to run, a finish
      time when it ends, under a canonical or a legacy name, and no other change. */
  ghost predicate Stamped(before: Row, after: Row, now: Time) {
    && after.startedAt == (if ResolveState(after.status) == Some(Running) then Some(now) else before.startedAt)
    && after.finishedAt == (if TerminalStatus(after.status) then Some(now) else before.finishedAt)
  }

  /** The columns a status write leaves. */
  ghost predicate Updated(before: Row, after: Row, status: string, error: ErrorArg, now: Time) {
    && after.status == status
    && after.error == (if error.Set? then error.value else before.error)
    && Stamped(before, after, now)
  }

  /** The row a successful uninterrupted call leaves: the target status, the caller's error
      column, and the stamps of its last write, at `now`. */
  ghost predicate Landed(call: Call, before: Row, after: Row, target: JobState, now: Time) {
    && after.status == Value(target)
    && after.error == call.error
    && after.startedAt == (if target == Running then Some(now) else before.startedAt)
    && after.finishedAt == (if Terminal(target) then Some(now) else before.finishedAt)
  }

  /** All or nothing: absent interference a call either leaves the row untouched (no-op,
      guard mismatch or exception) or carries it all the way to its target; the last case applies
      exactly to the reachable targets. */
  lemma {:induction false} SoloIsAllOrNothing(call: Call, row: Row, clock: nat -> Time)
    ensures var (row', p) := Solo(call, Reading, Some(row), clock);
            match (ResolveState(row.status), FromValue(call.target))
            case (Some(current), Some(target)) =>
              if current == target then
                row' == Some(row) && p == Returned(Value(target))
              else if call.expected.Some? && FromValue(call.expected.value) != Some(current) then
                row' == Some(row) && p == (if FromValue(call.expected.value).None? then Raised(InvalidStatus) else Returned(Value(current)))
              else if Reachable(current, target) && !Terminal(current) then
                p == Returned(Value(target)) && row'.Some? && Landed(call, row, row'.value, target, clock(2))
              else
                row' == Some(row) && p == Raised(InvalidTransition)
            case _ =>
              row' == Some(row) && p == Raised(InvalidStatus)
  {
    var p := AfterRead(call, Some(row));
    if p.Walking? {
      var current, target := ResolveState(row.status).value, FromValue(call.target).value;
      PathLegality(current, target);
      var r1 := Write(row, Value(p.path[0]), StepError(call, p.path), clock(Budget(p)));
      assert Advance(call, p, Some(row), clock(Budget(p))) == (Some(r1), AfterWrite(p.path));
      var q := AfterWrite(p.path);
      assert Solo(call, Reading, Some(row), clock) == Solo(call, q, Some(r1), clock);
      if |p.path| == 2 {
        assert p.path[1..] == [target];
        assert q == Walking(p.path[0], [target], Value(p.path[0]));
        var r2 := Write(r1, Value(target), Set(call.error), clock(Budget(q)));
        assert Advance(call, q, Some(r1), clock(Budget(q))) == (Some(r2), Returned(Value(target)));
        assert Landed(call, row, r2, target, clock(2));
        assert Solo(call, q, Some(r1), clock) == Solo(call, Returned(Value(target)), Some(r2), clock);
      } else {
        assert q == Returned(Value(target)) && Landed(call, row, r1, target, clock(2));
      }
    }
  }

  // ----- the storage object -----

  function Lookup(rows: map<JobId, Row>, id: JobId): Option<Row> {
    if id in rows then Some(rows[id]) else None
  }

  function Outcome(p: Phase): Result<string, JobError>
    requires Finished(p)
  {
    match p
    case Returned(status) => Success(status)
    case Raised(e) => Failure(e)
  }

  function StaleCall(id: JobId): Call {
    Call(id, "failed", Some("worker restarted"), Some("running"))
  }

  /** What crash recovery does to one row. */
  ghost predicate Recovered(id: JobId, before: Row, after: Row, now: Time) {
    if before.status == "running" then Landed(StaleCall(id), before, after, Failed, now) else after == before
  }

  /** The rows a worker restart finds stored as "running". */
  function Stale(rows: map<JobId, Row>): set<JobId> {
    set id | id in rows && rows[id].status == "running"
  }

  ghost predicate RecoveredSoFar(done: set<JobId>, before: map<JobId, Row>, after: map<JobId, Row>,
                                clock: JobId -> nat -> Time) {
    && after.Keys == before.Keys
    && forall id :: id in before ==>
         if id in done then Recovered(id, before[id], after[id], clock(id)(2)) else after[id] == before[id]
  }

  lemma {:induction false} StillRunning(done: set<JobId>, before: map<JobId, Row>, after: map<JobId, Row>,
                                        clock: JobId -> nat -> Time, id: JobId)
    requires RecoveredSoFar(done, before, after, clock) && id in Stale(before) && id !in done
    ensures id in after && after[id] == before[id] && after[id].status == "running"
  {
  }

  lemma {:induction false} RecoverNext(done: set<JobId>, before: map<JobId, Row>, after: map<JobId, Row>, id: JobId, row: Row,
                                       clock: JobId -> nat -> Time)
    requires RecoveredSoFar(done, before, after, clock)
    requires id in before && id !in done && Recovered(id, before[id], row, clock(id)(2))
    ensures RecoveredSoFar(done + {id}, before, after[id := row], clock)
  {
  }

  lemma {:induction false} MovesOver(all: set<JobId>, done: set<JobId>, todo: set<JobId>, id: JobId)
    requires done !! todo && done + todo == all && id in todo
    ensures done + {id} !! todo - {id} && (done + {id}) + (todo - {id}) == all && |todo - {id}| == |todo| - 1
  {
  }

  /** Every row went through the recovery. */
  ghost predicate AllRecovered(before: map<JobId, Row>, after: map<JobId, Row>, clock: JobId -> nat -> Time) {
    after.Keys == before.Keys && forall id :: id in before ==> Recovered(id, before[id], after[id], clock(id)(2))
  }

  lemma {:induction false} RecoveryEnds(before: map<JobId, Row>, after: map<JobId, Row>, clock: JobId -> nat -> Time)
    requires RecoveredSoFar(Stale(before), before, after, clock)
    ensures AllRecovered(before, after, clock)
  {
  }

  lemma {:induction false} RecoveryOfOneRow(id: JobId, row: Row, clock: nat -> Time)
    requires row.status == "running"
    ensures var (row', p) := Solo(StaleCall(id), Reading, Some(row), clock);
            p == Returned("failed") && row'.Some? && Recovered(id, row, row'.value, clock(2))
  {
    SoloIsAllOrNothing(StaleCall(id), row, clock);
    ValueRoundTrip(Running);
    ValueRoundTrip(Failed);
  }

  class JobStorage {
    var rows: map<JobId, Row>
    var nextId: JobId

    ghost predicate Valid()
      reads this
    {
      forall id :: id in rows ==> id < nextId
    }

    constructor ()
      ensures Valid() && rows == map[]
    {
      rows, nextId := map[], 0;
    }

    method Create() returns (id: JobId)
      requires Valid()
      modifies this
      ensures Valid() && id !in old(rows)
      ensures rows == old(rows)[id := Row("queued", None, None, None)]
    {
      id := nextId;
      rows, nextId := rows[id := Row("queued", None, None, None)], nextId + 1;
    }

    /** Retry after a terminal state: a fresh row, the original untouched. */
    method CloneJob(original: JobId) returns (r: Result<JobId, JobError>)
      requires Valid()
      modifies this
      ensures Valid()
      ensures original !in old(rows) ==> r == Failure(NotFound) && rows == old(rows)
      ensures original in old(rows) ==>
                r.Success? && r.value !in old(rows) && rows == old(rows)[r.value := Row("created", None, None, None)]
    {
      if original !in rows {
        return Failure(NotFound);
      }
      var id := nextId;
      rows, nextId := rows[id := Row("created", None, None, None)], nextId + 1;
      return Success(id);
    }

    /** The number of rows written, or InvalidStatus for a string that names no state. */
    method UpdateStatus(id: JobId, status: string, error: ErrorArg, expected: Option<string>, now: Time)
      returns (r: Result<nat, JobError>)
      modifies this`rows
      ensures ResolveState(status).None? ==> r == Failure(InvalidStatus) && rows == old(rows)
      ensures ResolveState(status).Some? ==>
                var hit := id in old(rows) && (expected.None? || old(rows)[id].status == expected.value);
                && r == Success(if hit then 1 else 0)
                && rows == (if hit then old(rows)[id := Write(old(rows)[id], status, error, now)] else old(rows))
                && (hit ==> Updated(old(rows)[id], rows[id], status, error, now))
    {
      var canonical := LegacyMap(status);
      if canonical.None? {
        canonical := FromValue(status);
      }
      if canonical.None? {
        return Failure(InvalidStatus);
      }
      if id !in rows || (expected.Some? && rows[id].status != expected.value) {
        return Success(0);
      }
      rows := rows[id := Write(rows[id], status, error, now)];
      return Success(1);
    }

    /** One turn of the persisting loop: the transition in memory, then the compare-and-set, which nobody disturbs. */
    method PersistOne(call: Call, job: Job, step: JobState, last: bool, prev: string, now: Time)
      returns (r: Result<JobState, JobError>)
      requires call.job in rows && rows[call.job].status == prev
      modifies this`rows, job
      ensures step !in Legal(old(job.state)) ==> r == Failure(InvalidTransition) && rows == old(rows)
      ensures step in Legal(old(job.state)) ==>
                && r == Success(step) && job.state == step
                && rows == old(rows)[call.job := Write(old(rows)[call.job], Value(step),
                                                       if last then Set(call.error) else Unset, now)]
    {
      r := job.Transition(step, now);
      if r.Success? {
        ValueRoundTrip(step);
        var affected := UpdateStatus(call.job, Value(step), if last then Set(call.error) else Unset, Some(prev), now);
        if affected != Success(1) {
          assert false;
        }
      }
    }

    /** The persisting loop of a call: every step of `path` is a compare-and-set over the
        status the previous one wrote. */
    method Persist(call: Call, job: Job, path: Steps, rawStatus: string, clock: nat -> Time)
      returns (r: Result<string, JobError>)
      requires call.job in rows && rows[call.job].status == rawStatus
      modifies this`rows, job
      ensures var (row', p) := Solo(call, CheckNext(old(job.state), path, rawStatus), Some(old(rows)[call.job]), clock);
              r == Outcome(p) && row'.Some? && rows == old(rows)[call.job := row'.value]
    {
      var prev, index := rawStatus, 0;
      ghost var start, row0 := CheckNext(job.state, path, rawStatus), Some(rows[call.job]);
      ghost var p := start;
      while index < |path|
        invariant 0 <= index <= |path|
        invariant call.job in rows && rows == old(rows)[call.job := rows[call.job]]
        invariant rows[call.job].status == prev
        invariant p == if index < |path| then CheckNext(job.state, path[index..], prev) else Returned(prev)
        invariant Solo(call, start, row0, clock) == Solo(call, p, Some(rows[call.job]), clock)
      {
        ghost var rest, before, local := path[index..], rows[call.job], job.state;
        var step := path[index];
        var moved := PersistOne(call, job, step, index == |path| - 1, prev, clock(|path| - index + 1));
        if moved.Failure? {
          return Failure(moved.error);
        }
        SoloStep(call, local, rest, before, clock);
        p := AfterWrite(rest);
        assert rest[1..] == path[index + 1..];
        prev := Value(step);
        index := index + 1;
      }
      return Success(prev);
    }

    /** A whole call, run without interference: it computes `Solo` on the job's row. */
    method TransitionStatus(call: Call, clock: nat -> Time) returns (r: Result<string, JobError>)
      modifies this`rows
      ensures var (row', p) := Solo(call, Reading, Lookup(old(rows), call.job), clock);
              && r == Outcome(p)
              && rows == (if row'.Some? then old(rows)[call.job := row'.value] else old(rows))
    {
      ghost var row0 := Lookup(rows, call.job);
      ghost var start := AfterRead(call, row0);
      assert Solo(call, Reading, row0, clock) == Solo(call, start, row0, clock);
      if call.job !in rows {
        return Failure(NotFound);
      }
      assert rows == rows[call.job := rows[call.job]];
      var rawStatus := rows[call.job].status;
      var state, target := ResolveState(rawStatus), FromValue(call.target);
      if state.None? || target.None? {
        return Failure(InvalidStatus);
      }
      if state == target {
        return Success(Value(state.value));
      }
      if call.expected.Some? {
        var expected := FromValue(call.expected.value);
        if expected.None? {
          return Failure(InvalidStatus);
        }
        if state != expected {
          return Success(Value(state.value));
        }
      }
      if Terminal(state.value) {
        return Failure(InvalidTransition);
      }
      var job := new Job(state.value, rows[call.job].startedAt, rows[call.job].finishedAt);
      r := Persist(call, job, Path(state.value, target.value), rawStatus, clock);
    }

    method RecoverRow(id: JobId, clock: nat -> Time) returns (r: Result<string, JobError>)
      requires id in rows && rows[id].status == "running"
      modifies this`rows
      ensures r == Success("failed")
      ensures id in rows && rows == old(rows)[id := rows[id]] && Recovered(id, old(rows)[id], rows[id], clock(2))
    {
      RecoveryOfOneRow(id, rows[id], clock);
      r := TransitionStatus(StaleCall(id), clock);
    }

    /** One turn of the recovery loop. */
    method RecoverOne(ghost done: set<JobId>, ghost before: map<JobId, Row>, id: JobId, clock: JobId -> nat -> Time)
      returns (r: Result<string, JobError>)
      requires RecoveredSoFar(done, before, rows, clock) && id in Stale(before) && id !in done
      modifies this`rows
      ensures r == Success("failed") && RecoveredSoFar(done + {id}, before, rows, clock)
    {
      ghost var was := rows;
      StillRunning(done, before, was, clock, id);
      r := RecoverRow(id, clock(id));
      RecoverNext(done, before, was, id, rows[id], clock);
      assert rows == was[id := rows[id]];
    }

    /** Crash recovery: exactly the rows stored as "running" become failed, and they are counted. */
    method MarkStaleRunningFailed(clock: JobId -> nat -> Time) returns (count: nat)
      modifies this`rows
      ensures count == |Stale(old(rows))|
      ensures AllRecovered(old(rows), rows, clock)
    {
      var todo := Stale(rows);
      ghost var done: set<JobId>, running := {}, todo;
      count := 0;
      while todo != {}
        invariant done !! todo && done + todo == running
        invariant count + |todo| == |running|
        invariant RecoveredSoFar(done, old(rows), rows, clock)
        decreases |todo|
      {
        var id :| id in todo;
        var r := RecoverOne(done, old(rows), id, clock);
        if r == Success("failed") {
          count := count + 1;
        }
        MovesOver(running, done, todo, id);
        todo, done := todo - {id}, done + {id};
      }
      assert done == Stale(old(rows));
      RecoveryEnds(old(rows), rows, clock);
    }
  }
}
