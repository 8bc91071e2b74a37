/** The declared status graph (jobs/domain/transitions.py) and its check (jobs/domain/state_machine.py). */
module Transitions {
  import opened Tables

  const ALLOWED_TRANSITIONS: map<JobStatus, set<JobStatus>> := map[
    Waiting := {Queued, JobStatus.Cancelled},
    Queued := {Executing, CancelRequested, Waiting},
    Executing := {JobStatus.Succeeded, RetryWait, FailedFinal, CancelRequested},
    RetryWait := {Waiting, JobStatus.Cancelled},
    CancelRequested := {JobStatus.Cancelled, JobStatus.Succeeded}]

  predicate Declared(from: JobStatus, to: JobStatus) {
    from in ALLOWED_TRANSITIONS && to in ALLOWED_TRANSITIONS[from]
  }

  /** A status without an entry allows nothing. */
  function ValidateTransition(from: JobStatus, to: JobStatus): (r: Outcome<()>)
    ensures r.Ok? <==> Declared(from, to)
    ensures r.Ok? ==> !Terminal(from)
  {
    var allowed := if from in ALLOWED_TRANSITIONS then ALLOWED_TRANSITIONS[from] else {};
    if to !in allowed then Raised(InvalidTransition) else Ok(())
  }
}
