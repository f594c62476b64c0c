/** The JobState machine (pwnproxy/shared/contracts/job.py): the canonical states, the legacy
    status strings still found in the database, and the table of legal transitions. */
module JobContract {
  import opened Wrappers

  type Time = int

  datatype JobState = Created | Starting | Running | Stopping | Completed | Failed | Cancelled

  datatype JobError = NotFound | InvalidStatus | InvalidTransition | Disappeared

  /** The string stored for a state. */
  function Value(s: JobState): string {
    match s
    case Created => "created"
    case Starting => "starting"
    case Running => "running"
    case Stopping => "stopping"
    case Completed => "completed"
    case Failed => "failed"
    case Cancelled => "cancelled"
  }

  /** `JobState(v)`: only the canonical strings are members of the enumeration. */
  function FromValue(v: string): Option<JobState> {
    if v == "created" then Some(Created)
    else if v == "starting" then Some(Starting)
    else if v == "running" then Some(Running)
    else if v == "stopping" then Some(Stopping)
    else if v == "completed" then Some(Completed)
    else if v == "failed" then Some(Failed)
    else if v == "cancelled" then Some(Cancelled)
    else None
  }

  function LegacyMap(v: string): Option<JobState> {
    if v == "queued" then Some(Created)
    else if v == "running" then Some(Running)
    else if v == "completed" then Some(Completed)
    else if v == "failed" then Some(Failed)
    else if v == "stopped" then Some(Cancelled)
    else None
  }

  /** The canonical state behind a stored string, or None where the source raises ValueError. */
  function ResolveState(v: string): Option<JobState> {
    match FromValue(v)
    case Some(s) => Some(s)
    case None => LegacyMap(v)
  }

  /** The stored strings that name a state: its own name, or one of two old ones. */
  lemma {:induction false} StatusNames(v: string, s: JobState)
    ensures ResolveState(v) == Some(s) <==> v == Value(s) || (v == "queued" && s == Created) || (v == "stopped" && s == Cancelled)
  {
  }

  function Legal(s: JobState): set<JobState> {
    match s
    case Created => {Starting, Cancelled}
    case Starting => {Running, Failed, Stopping}
    case Running => {Stopping, Completed, Failed}
    case Stopping => {Cancelled, Failed}
    case Completed => {}
    case Failed => {}
    case Cancelled => {}
  }

  predicate Terminal(s: JobState) {
    s == Completed || s == Failed || s == Cancelled
  }

  /** Position of a state in the acyclic transition graph. */
  function Rank(s: JobState): (r: nat)
    ensures r <= 4
    ensures r == 4 <==> Terminal(s)
  {
    match s
    case Created => 0
    case Starting => 1
    case Running => 2
    case Stopping => 3
    case Completed => 4
    case Failed => 4
    case Cancelled => 4
  }

  lemma {:induction false} LegalClimbs(s: JobState, t: JobState)
    requires t in Legal(s)
    ensures Rank(s) < Rank(t)
  {
  }

  /** Canonical strings round-trip, and the legacy aliases resolve without shadowing them. */
  lemma {:induction false} ValueRoundTrip(s: JobState)
    ensures FromValue(Value(s)) == Some(s)
    ensures ResolveState(Value(s)) == Some(s)
  {
  }

  /** The in-memory job whose state the contract function mutates. */
  class Job {
    var state: JobState
    var startedAt: Option<Time>
    var finishedAt: Option<Time>

    constructor (state: JobState, startedAt: Option<Time>, finishedAt: Option<Time>)
      ensures this.state == state && this.startedAt == startedAt && this.finishedAt == finishedAt
    {
      this.state, this.startedAt, this.finishedAt := state, startedAt, finishedAt;
    }

    /** `transition(job, new_state)`: an illegal move raises and leaves the job untouched; a legal
        one climbs the transition graph and stamps the first start and the end. */
    method Transition(newState: JobState, now: Time) returns (r: Result<JobState, JobError>)
      modifies this
      ensures newState in Legal(old(state)) ==>
                && r == Success(newState) && state == newState
                && Rank(old(state)) < Rank(state)
                && startedAt == (if newState == Running && old(startedAt).None? then Some(now) else old(startedAt))
                && finishedAt == (if Terminal(newState) then Some(now) else old(finishedAt))
      ensures newState !in Legal(old(state)) ==>
                r == Failure(InvalidTransition) && unchanged(this)
    {
      if newState !in Legal(state) {
        return Failure(InvalidTransition);
      }
      LegalClimbs(state, newState);
      state := newState;
      if newState == Running && startedAt.None? {
        startedAt := Some(now);
      }
      if Terminal(newState) {
        finishedAt := Some(now);
      }
      return Success(newState);
    }
  }
}
