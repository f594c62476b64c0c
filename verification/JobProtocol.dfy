/** Any number of `transition_status` calls over one jobs table, interleaved at the granularity
    of a single database operation.  A run is a sequence of states joined by events; the theorems
    hold of every run, for every schedule and every mix of calls. */
module JobProtocol {
  import opened Wrappers
  import opened JobContract
  import opened JobStorage
  import opened JobLifecycle

  type CallId = nat

  datatype Active = Active(call: Call, phase: Phase)

  datatype System = System(rows: map<JobId, Row>, calls: map<CallId, Active>)

  datatype Event =
    | CreateJob(job: JobId, cloned: bool)
    | Invoke(id: CallId, call: Call)
    | Step(id: CallId, now: Time)

  function NewRow(cloned: bool): Row {
    Row(if cloned then "created" else "queued", None, None, None)
  }

  predicate Enabled(s: System, e: Event) {
    match e
    case CreateJob(job, _) => job !in s.rows
    case Invoke(id, _) => id !in s.calls
    case Step(id, _) => id in s.calls && !Finished(s.calls[id].phase)
  }

  function Next(s: System, e: Event): System
    requires Enabled(s, e)
  {
    match e
    case CreateJob(job, cloned) => s.(rows := s.rows[job := NewRow(cloned)])
    case Invoke(id, call) => s.(calls := s.calls[id := Active(call, Reading)])
    case Step(id, now) =>
      var a := s.calls[id];
      var (row', p') := Advance(a.call, a.phase, Lookup(s.rows, a.call.job), now);
      System(if row'.Some? then s.rows[a.call.job := row'.value] else s.rows,
             s.calls[id := a.(phase := p')])
  }

  ghost predicate IsRun(states: seq<System>, events: seq<Event>) {
    && |states| == |events| + 1
    && forall i :: 0 <= i < |events| ==> Enabled(states[i], events[i]) && states[i + 1] == Next(states[i], events[i])
  }

  // ----- what one operation of one call can do -----

  /** The compare-and-set of this phase hits the row. */
  predicate Hits(p: Phase, row: Option<Row>) {
    p.Walking? && row.Some? && row.value.status == p.prev
  }

  /** A write along one edge of the transition table. */
  predicate LegalWrite(before: Row, after: Row) {
    var x, y := ResolveState(before.status), ResolveState(after.status);
    x.Some? && y.Some? && after.status == Value(y.value) && y.value in Legal(x.value)
  }

  predicate PhaseOk(p: Phase) {
    p.Walking? ==> ResolveState(p.prev) == Some(p.local) && p.path[0] in Legal(p.local)
  }

  lemma {:induction false} AdvanceWritesLegally(call: Call, p: Phase, row: Option<Row>, now: Time)
    requires PhaseOk(p)
    ensures var (row', p') := Advance(call, p, row, now);
            && PhaseOk(p')
            && (Hits(p, row) ==> row'.Some? && LegalWrite(row.value, row'.value))
            && (!Hits(p, row) ==> row' == row)
  {
    if p.Walking? {
      ValueRoundTrip(p.path[0]);
    }
  }

  /** When a call returns a status, the row has that status at that very instant. */
  lemma {:induction false} AdvanceReturnsCurrentStatus(call: Call, p: Phase, row: Option<Row>, now: Time)
    requires !Finished(p)
    ensures var (row', p') := Advance(call, p, row, now);
            p'.Returned? ==> row'.Some? && ResolveState(p'.status) == ResolveState(row'.value.status)
  {
    if p.Reading? && row.Some? {
      var current := ResolveState(row.value.status);
      if current.Some? {
        ValueRoundTrip(current.value);
      }
    }
  }

  // ----- safety of every run -----

  /** A call that claims a terminal outcome is right about it. */
  predicate ClaimHolds(rows: map<JobId, Row>, a: Active) {
    a.phase.Returned? && TerminalStatus(a.phase.status) ==>
      a.call.job in rows && ResolveState(rows[a.call.job].status) == ResolveState(a.phase.status)
  }

  ghost predicate Inv(s: System) {
    forall id :: id in s.calls ==> PhaseOk(s.calls[id].phase) && ClaimHolds(s.rows, s.calls[id])
  }

  predicate Wrote(s: System, e: Event, job: JobId) {
    e.Step? && e.id in s.calls && s.calls[e.id].call.job == job && Hits(s.calls[e.id].phase, Lookup(s.rows, job))
  }

  lemma {:induction false} StepIsSafe(s: System, e: Event)
    requires Inv(s) && Enabled(s, e)
    ensures Inv(Next(s, e))
    ensures forall job :: job in s.rows ==>
              && job in Next(s, e).rows
              && (Wrote(s, e, job) ==> LegalWrite(s.rows[job], Next(s, e).rows[job]))
              && (!Wrote(s, e, job) ==> Next(s, e).rows[job] == s.rows[job])
  {
    if e.Step? {
      var a := s.calls[e.id];
      AdvanceWritesLegally(a.call, a.phase, Lookup(s.rows, a.call.job), e.now);
      AdvanceReturnsCurrentStatus(a.call, a.phase, Lookup(s.rows, a.call.job), e.now);
    }
  }

  lemma {:induction false} RunIsSafe(states: seq<System>, events: seq<Event>, k: nat)
    requires IsRun(states, events) && Inv(states[0]) && k < |states|
    ensures Inv(states[k])
  {
    if k > 0 {
      RunIsSafe(states, events, k - 1);
      StepIsSafe(states[k - 1], events[k - 1]);
    }
  }

  /** The stored status of a job only ever moves along an edge of the transition table. */
  lemma {:induction false} StatusHistoryIsLegal(states: seq<System>, events: seq<Event>, i: nat, job: JobId)
    requires IsRun(states, events) && Inv(states[0])
    requires i < |events| && job in states[i].rows
    ensures job in states[i + 1].rows
    ensures states[i + 1].rows[job] == states[i].rows[job] || LegalWrite(states[i].rows[job], states[i + 1].rows[job])
  {
    RunIsSafe(states, events, i);
    StepIsSafe(states[i], events[i]);
  }

  /** Successful status writes to one job during a run. */
  ghost function Writes(states: seq<System>, events: seq<Event>, job: JobId): nat
    requires |states| == |events| + 1
  {
    if events == [] then 0
    else (if Wrote(states[0], events[0], job) then 1 else 0) + Writes(states[1..], events[1..], job)
  }

  function RankOf(row: Row): nat {
    match ResolveState(row.status) case Some(s) => Rank(s) case None => 0
  }

  lemma {:induction false} WriteClimbs(s: System, e: Event, job: JobId)
    requires Inv(s) && Enabled(s, e) && job in s.rows
    ensures Inv(Next(s, e)) && job in Next(s, e).rows
    ensures RankOf(s.rows[job]) + (if Wrote(s, e, job) then 1 else 0) <= RankOf(Next(s, e).rows[job])
    ensures !Wrote(s, e, job) ==> Next(s, e).rows[job] == s.rows[job]
  {
    StepIsSafe(s, e);
    if Wrote(s, e, job) {
      LegalClimbs(ResolveState(s.rows[job].status).value, ResolveState(Next(s, e).rows[job].status).value);
    }
  }

  lemma {:induction false} WritesClimb(states: seq<System>, events: seq<Event>, job: JobId)
    requires IsRun(states, events) && Inv(states[0]) && job in states[0].rows
    ensures job in states[|events|].rows
    ensures RankOf(states[0].rows[job]) + Writes(states, events, job) <= RankOf(states[|events|].rows[job])
    ensures Writes(states, events, job) == 0 ==> states[|events|].rows[job] == states[0].rows[job]
  {
    if events != [] {
      WriteClimbs(states[0], events[0], job);
      WritesClimb(states[1..], events[1..], job);
    }
  }

  /** At most four status writes to a job ever succeed, and none once it is terminal: the row
      of a terminal job is frozen. */
  lemma {:induction false} AtMostFourWrites(states: seq<System>, events: seq<Event>, job: JobId)
    requires IsRun(states, events) && Inv(states[0]) && job in states[0].rows
    ensures Writes(states, events, job) <= 4 - RankOf(states[0].rows[job])
    ensures TerminalStatus(states[0].rows[job].status) ==>
              Writes(states, events, job) == 0
              && job in states[|events|].rows && states[|events|].rows[job] == states[0].rows[job]
  {
    WritesClimb(states, events, job);
  }

  /** Two calls on one job that both return a terminal status return the same one, and it is the
      status of the row: under any race nobody claims a final state that is not the actual one. */
  lemma {:induction false} NoFalseTerminalClaim(states: seq<System>, events: seq<Event>, k: nat, c: CallId, d: CallId)
    requires IsRun(states, events) && Inv(states[0]) && k < |states|
    requires c in states[k].calls && d in states[k].calls
    requires states[k].calls[c].call.job == states[k].calls[d].call.job
    requires states[k].calls[c].phase.Returned? && TerminalStatus(states[k].calls[c].phase.status)
    requires states[k].calls[d].phase.Returned? && TerminalStatus(states[k].calls[d].phase.status)
    ensures var job := states[k].calls[c].call.job;
            && job in states[k].rows
            && ResolveState(states[k].calls[c].phase.status)
            == ResolveState(states[k].calls[d].phase.status)
            == ResolveState(states[k].rows[job].status)
  {
    RunIsSafe(states, events, k);
  }

  /** The status a call returns is the row's status at the instant of its last operation. */
  lemma {:induction false} ReturnedStatusWasCurrent(states: seq<System>, events: seq<Event>, i: nat, c: CallId)
    requires IsRun(states, events) && i < |events|
    requires c in states[i].calls && !Finished(states[i].calls[c].phase)
    requires states[i + 1].calls[c].phase.Returned?
    ensures var job := states[i].calls[c].call.job;
            && job in states[i + 1].rows
            && ResolveState(states[i + 1].calls[c].phase.status) == ResolveState(states[i + 1].rows[job].status)
  {
    var a, e := states[i].calls[c], events[i];
    assert e.Step? && e.id == c;
    AdvanceReturnsCurrentStatus(a.call, a.phase, Lookup(states[i].rows, a.call.job), e.now);
  }

  // ----- when a job started and ended -----

  /** A write of any schedule stamps the row with the time of its own step, and only as its status says. */
  lemma {:induction false} WritesAreStamped(s: System, e: Event, job: JobId)
    requires Inv(s) && Enabled(s, e) && Wrote(s, e, job) && job in s.rows
    ensures job in Next(s, e).rows && Stamped(s.rows[job], Next(s, e).rows[job], e.now)
  {
    var a := s.calls[e.id];
    AdvanceWritesLegally(a.call, a.phase, Lookup(s.rows, job), e.now);
    ValueRoundTrip(a.phase.path[0]);
  }

  /** This event brought the job to this state: it was elsewhere before. */
  ghost predicate Enters(s: System, e: Event, job: JobId, t: JobState) {
    && Enabled(s, e) && job in s.rows && job in Next(s, e).rows
    && ResolveState(s.rows[job].status) != Some(t) && ResolveState(Next(s, e).rows[job].status) == Some(t)
  }

  lemma {:induction false} EntryIsStamped(s: System, e: Event, job: JobId, t: JobState)
    requires Inv(s) && Enters(s, e, job, t)
    ensures e.Step? && Wrote(s, e, job) && Rank(t) > RankOf(s.rows[job])
    ensures t == Running ==> Next(s, e).rows[job].startedAt == Some(e.now)
    ensures Terminal(t) ==> Next(s, e).rows[job].finishedAt == Some(e.now)
  {
    StepIsSafe(s, e);
    WritesAreStamped(s, e, job);
    LegalClimbs(ResolveState(s.rows[job].status).value, t);
  }

  /** Later steps leave an ended job alone, and the start time of one that has run. */
  lemma {:induction false} StampsStay(s: System, e: Event, job: JobId)
    requires Inv(s) && Enabled(s, e) && job in s.rows
    ensures job in Next(s, e).rows && RankOf(s.rows[job]) <= RankOf(Next(s, e).rows[job])
    ensures RankOf(s.rows[job]) >= Rank(Running) ==> Next(s, e).rows[job].startedAt == s.rows[job].startedAt
    ensures RankOf(s.rows[job]) == 4 ==> Next(s, e).rows[job] == s.rows[job]
  {
    WriteClimbs(s, e, job);
    if Wrote(s, e, job) {
      StepIsSafe(s, e);
      WritesAreStamped(s, e, job);
    }
  }

  lemma {:induction false} StampsStayOn(states: seq<System>, events: seq<Event>, i: nat, k: nat, job: JobId)
    requires IsRun(states, events) && Inv(states[0]) && i <= k < |states| && job in states[i].rows
    ensures job in states[k].rows && RankOf(states[i].rows[job]) <= RankOf(states[k].rows[job])
    ensures RankOf(states[i].rows[job]) >= Rank(Running) ==> states[k].rows[job].startedAt == states[i].rows[job].startedAt
    ensures RankOf(states[i].rows[job]) == 4 ==> states[k].rows[job] == states[i].rows[job]
  {
    if i < k {
      StampsStayOn(states, events, i, k - 1, job);
      RunIsSafe(states, events, k - 1);
      StampsStay(states[k - 1], events[k - 1], job);
    }
  }

  /** In every run the step that sets a job running is its start time from then on, and the step that ends
      it is its finish time from then on, whatever races with them. */
  lemma {:induction false} StampsAreTheSteps(states: seq<System>, events: seq<Event>, i: nat, k: nat, job: JobId, t: JobState)
    requires IsRun(states, events) && Inv(states[0]) && i < k < |states| && Enters(states[i], events[i], job, t)
    ensures events[i].Step? && job in states[k].rows
    ensures t == Running ==> states[k].rows[job].startedAt == Some(events[i].now)
    ensures Terminal(t) ==> states[k].rows[job].finishedAt == Some(events[i].now)
  {
    RunIsSafe(states, events, i);
    EntryIsStamped(states[i], events[i], job, t);
    StampsStayOn(states, events, i + 1, k, job);
  }

  // ----- wait-freedom -----

  ghost function OperationsOf(events: seq<Event>, c: CallId): nat {
    if events == [] then 0
    else (if events[0].Step? && events[0].id == c then 1 else 0) + OperationsOf(events[1..], c)
  }

  function Remaining(s: System, c: CallId): nat {
    if c in s.calls then Budget(s.calls[c].phase) else 4
  }

  /** Whatever the other calls do, a call never issues more database operations than its phase
      allows it; from its first read that is four. */
  lemma {:induction false} CallsAreWaitFree(states: seq<System>, events: seq<Event>, c: CallId)
    requires IsRun(states, events)
    ensures OperationsOf(events, c) + Remaining(states[|events|], c) <= Remaining(states[0], c)
    ensures c !in states[0].calls ==> OperationsOf(events, c) <= 4
  {
    if events != [] {
      var e := events[0];
      if e.Step? && e.id == c {
        var a := states[0].calls[c];
        AdvanceIsWaitFree(a.call, a.phase, Lookup(states[0].rows, a.call.job), e.now);
      }
      CallsAreWaitFree(states[1..], events[1..], c);
    }
  }
}
