/** The canonical job lifecycle states and the table of allowed transitions. */
module JobStates {
  datatype JobStatus =
    | Queued | Scheduled | Running | RetryWait | Paused | Timeout | TtlExpired
    | Succeeded | Failed | Cancelled
    | Created | Validated | Dispatched | Blocked | DeadLettered | Archived

  datatype Result<+T> = Ok(value: T) | InvalidTransition

  /** The default transition table, row by row. */
  function Targets(from: JobStatus): set<JobStatus> {
    match from
    case Queued => {Scheduled, Running, Dispatched, Cancelled, Timeout}
    case Scheduled => {Queued, Running, Dispatched, Cancelled, Timeout}
    case Running => {Succeeded, Failed, RetryWait, Cancelled, Paused, Blocked, Timeout, TtlExpired}
    case RetryWait => {Queued, Running, Failed, Cancelled, Timeout, DeadLettered}
    case Paused => {Running, Cancelled, Timeout, TtlExpired}
    case Succeeded => {Archived}
    case Failed => {DeadLettered, Archived}
    case Cancelled => {Archived}
    case Timeout => {RetryWait, Failed, DeadLettered, Archived}
    case TtlExpired => {Archived}
    case Created => {Validated, Cancelled}
    case Validated => {Queued, Failed}
    case Dispatched => {Running, Cancelled, Timeout}
    case Blocked => {Running, Cancelled, Timeout, Failed}
    case DeadLettered => {Archived}
    case Archived => {}
  }

  predicate CanTransition(from: JobStatus, to: JobStatus) {
    to in Targets(from)
  }

  /** Validates and applies a transition; a forbidden one is the source's ValueError. */
  function Transition(from: JobStatus, to: JobStatus): (r: Result<JobStatus>)
    ensures r.Ok? ==> CanTransition(from, r.value) && r.value == to
    ensures r.InvalidTransition? <==> !CanTransition(from, to)
  {
    if CanTransition(from, to) then Ok(to) else InvalidTransition
  }

  /** A status history in which every step is an entry of the table. */
  ghost predicate IsLegalPath(p: seq<JobStatus>) {
    |p| >= 1 && forall i :: 0 < i < |p| ==> CanTransition(p[i - 1], p[i])
  }

  /** Work is over: nothing reachable from here runs again. */
  predicate Finished(s: JobStatus) {
    s in {Succeeded, Failed, Cancelled, TtlExpired, DeadLettered, Archived}
  }

  lemma {:induction false} FinishedPathStaysFinished(p: seq<JobStatus>, i: nat)
    requires IsLegalPath(p) && Finished(p[0])
    requires i < |p|
    ensures Finished(p[i])
  {
    if i > 0 {
      FinishedPathStaysFinished(p, i - 1);
      assert CanTransition(p[i - 1], p[i]);
    }
  }

  ghost predicate CanRunAfter(s: JobStatus) {
    exists p :: IsLegalPath(p) && p[0] == s && p[|p| - 1] == Running
  }

  lemma RunPath(p: seq<JobStatus>)
    requires IsLegalPath(p) && p[|p| - 1] == Running
    ensures CanRunAfter(p[0])
  {
  }

  /** A job can still reach `running` by allowed transitions exactly when it is not finished. */
  lemma RunsAgainIffNotFinished(s: JobStatus)
    ensures CanRunAfter(s) <==> !Finished(s)
  {
    if CanRunAfter(s) && Finished(s) {
      var p :| IsLegalPath(p) && p[0] == s && p[|p| - 1] == Running;
      FinishedPathStaysFinished(p, |p| - 1);
    }
    match s
    case Running => RunPath([Running]);
    case Created => RunPath([Created, Validated, Queued, Running]);
    case Validated => RunPath([Validated, Queued, Running]);
    case Timeout => RunPath([Timeout, RetryWait, Running]);
    case _ => if !Finished(s) { RunPath([s, Running]); }
  }
  // ---- The table read by columns, and what it means for whole histories ----

  /** Who may enter each status. */
  lemma EnteredFrom(s: JobStatus)
    ensures CanTransition(s, Queued) <==> s in {Scheduled, RetryWait, Validated}
    ensures CanTransition(s, Scheduled) <==> s == Queued
    ensures CanTransition(s, Running) <==> s in {Queued, Scheduled, RetryWait, Paused, Dispatched, Blocked}
    ensures CanTransition(s, RetryWait) <==> s in {Running, Timeout}
    ensures CanTransition(s, Paused) <==> s == Running
    ensures CanTransition(s, Timeout) <==> s in {Queued, Scheduled, Running, RetryWait, Paused, Dispatched, Blocked}
    ensures CanTransition(s, TtlExpired) <==> s in {Running, Paused}
    ensures CanTransition(s, Succeeded) <==> s == Running
    ensures CanTransition(s, Failed) <==> s in {Running, RetryWait, Timeout, Validated, Blocked}
    ensures CanTransition(s, Cancelled) <==>
              s in {Queued, Scheduled, Running, RetryWait, Paused, Created, Dispatched, Blocked}
    ensures !CanTransition(s, Created)
    ensures CanTransition(s, Validated) <==> s == Created
    ensures CanTransition(s, Dispatched) <==> s in {Queued, Scheduled}
    ensures CanTransition(s, Blocked) <==> s == Running
    ensures CanTransition(s, DeadLettered) <==> s in {RetryWait, Failed, Timeout}
    ensures CanTransition(s, Archived) <==> s in {Succeeded, Failed, Cancelled, Timeout, TtlExpired, DeadLettered}
  {
  }

  lemma FirstStep(p: seq<JobStatus>)
    requires IsLegalPath(p)
    ensures |p| > 1 ==> CanTransition(p[0], p[1])
  {
  }

  /** A job that was archived has no further history. */
  lemma ArchivedIsTheEnd(p: seq<JobStatus>)
    requires IsLegalPath(p) && p[0] == Archived
    ensures p == [Archived]
  {
    FirstStep(p);
  }

  lemma PathTail(p: seq<JobStatus>)
    requires IsLegalPath(p) && |p| > 1
    ensures IsLegalPath(p[1..]) && CanTransition(p[0], p[1]) && p == [p[0]] + p[1..]
  {
    forall i | 0 < i < |p[1..]| ensures CanTransition(p[1..][i - 1], p[1..][i]) {
      assert CanTransition(p[i], p[i + 1]);
    }
  }

  /** All that can still happen to a finished job: archiving, and before it, only after a failure,
      the dead letters. */
  lemma FinishedHistories(p: seq<JobStatus>)
    requires IsLegalPath(p) && Finished(p[0])
    ensures
      || p == [p[0]]
      || (p[0] != Archived && p == [p[0], Archived])
      || p == [Failed, DeadLettered] || p == [Failed, DeadLettered, Archived]
  {
    if |p| > 1 {
      PathTail(p);
      if p[1] == Archived {
        ArchivedIsTheEnd(p[1..]);
      } else if |p| > 2 {
        PathTail(p[1..]);
        ArchivedIsTheEnd(p[1..][1..]);
      }
    }
  }

  ghost predicate CanReach(from: JobStatus, to: JobStatus) {
    exists p :: IsLegalPath(p) && p[0] == from && p[|p| - 1] == to
  }

  lemma RunningSucceeds(p: seq<JobStatus>)
    requires IsLegalPath(p) && p[|p| - 1] == Running
    ensures CanReach(p[0], Succeeded)
  {
    var q := p + [Succeeded];
    assert IsLegalPath(q);
    assert q[0] == p[0] && q[|q| - 1] == Succeeded;
  }

  /** A job can still succeed exactly when it has or can still run. */
  lemma SucceedsIffNotFinished(s: JobStatus)
    ensures CanReach(s, Succeeded) <==> s == Succeeded || !Finished(s)
  {
    RunsAgainIffNotFinished(s);
    if CanRunAfter(s) {
      var p :| IsLegalPath(p) && p[0] == s && p[|p| - 1] == Running;
      RunningSucceeds(p);
    }
    if s == Succeeded {
      assert IsLegalPath([Succeeded]) && [Succeeded][0] == Succeeded;
    }
    if Finished(s) && CanReach(s, Succeeded) {
      var p :| IsLegalPath(p) && p[0] == s && p[|p| - 1] == Succeeded;
      FinishedHistories(p);
    }
  }
}
