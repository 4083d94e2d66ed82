/** Issue (logics/utilities/Issues.cs): a user-input error returned as a value
    that must be acknowledged before it is dropped. The finalizer that calls
    UnhandledException is run by the garbage collector and is not modelled;
    UnhandledException itself is. */
module Issues {

  /** The exception UnhandledException throws, or nothing. */
  datatype Outcome = Pass | IssueUnhandled

  class Issue {
    var handled: bool
    /** How many times the overridable HandleExec hook has run. */
    ghost var executions: nat

    /** The hook runs exactly when the issue goes from unhandled to handled. */
    ghost predicate Valid()
      reads this
    {
      executions == if handled then 1 else 0
    }

    constructor ()
      ensures Valid() && !handled
    {
      handled := false;
      executions := 0;
    }

    /** Runs HandleExec the first time only and marks the issue handled. */
    method Handle()
      requires Valid()
      modifies this
      ensures Valid() && handled
      ensures old(handled) ==> executions == old(executions)
      ensures !NeedHandling(this) && UnhandledException(this) == Pass
    {
      if handled {
        return;
      }
      executions := executions + 1; // HandleExec()
      handled := true;
    }
  }

  /** An issue needs handling when it exists and was not handled yet. */
  predicate NeedHandling(issue: Issue?)
    reads issue
  {
    issue != null && !issue.handled
  }

  /** The static Handle: does nothing for null or already-handled issues. */
  method Handle(issue: Issue?)
    requires issue != null ==> issue.Valid()
    modifies issue
    ensures issue != null ==> issue.Valid() && issue.handled
    ensures issue != null && old(issue.handled) ==> unchanged(issue)
  {
    if NeedHandling(issue) {
      issue.Handle();
    }
  }

  /** What the finalizer checks: it throws exactly for an issue that still needs handling. */
  function UnhandledException(issue: Issue?): (r: Outcome)
    reads issue
    ensures r == IssueUnhandled <==> issue != null && !issue.handled
  {
    if NeedHandling(issue) then IssueUnhandled else Pass
  }
}
