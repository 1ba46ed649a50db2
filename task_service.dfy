/**
 * The task runner: claims a task and runs the handler registered for its
 * name, records the outcome in the task's history, sweeps stale tasks back
 * to ready and aborts exhausted ones with a report to the developers.
 * Handlers and the report mail are outside the model: what a handler does
 * and whether the mail goes out are passed in.
 */
module TaskService {
  import opened Wrappers
  import opened Factory
  import opened TaskRepo

  const ABORT_REPORT_SUBJECT: string := "Task aborted !!!"

  /**
   * Stands for the stack of the type error the runtime raises when a task
   * name has no handler; the real text names the failing expression and
   * carries a trace, which the model does not reproduce.
   */
  const UNDEFINED_HANDLER_STACK: string := "TypeError: task function is not a function"

  /** What a handler does when it is run: returns, or throws an error with a stack. */
  datatype HandlerOutcome = Succeeded | Threw(stack: string)

  /** The names that have a handler; the one for cancelling a money transfer is not defined. */
  predicate HasHandler(name: TaskName) {
    name == SendEmailMessage || name == MoneyTransfer
  }

  /** Whether running the task's handler returns normally. */
  predicate Succeeds(name: TaskName, handler: HandlerOutcome) {
    HasHandler(name) && handler.Succeeded?
  }

  /** The status recorded after running a task: executed on success, the status it was handed with otherwise. */
  function RecordedStatus(task: Task, handler: HandlerOutcome): TaskStatus {
    if Succeeds(task.attributes.name, handler) then Executed else task.attributes.status
  }

  /** The error text recorded after running a task: empty on success, the stack of the error otherwise. */
  function RecordedError(name: TaskName, handler: HandlerOutcome): string {
    if Succeeds(name, handler) then ""
    else if !HasHandler(name) then UNDEFINED_HANDLER_STACK
    else handler.stack
  }

  /**
   * A claimed task is left running when its handler fails, including when
   * there is no handler for its name, and is executed only when it succeeds.
   */
  lemma ClaimedTaskOutcome(t: Task, now: Time, handler: HandlerOutcome)
    ensures RecordedStatus(Claimed(t, now), handler) == Executed <==> Succeeds(t.attributes.name, handler)
    ensures RecordedStatus(Claimed(t, now), handler) == Running <==> !Succeeds(t.attributes.name, handler)
    ensures Succeeds(t.attributes.name, handler) ==> RecordedError(t.attributes.name, handler) == ""
    ensures HasHandler(t.attributes.name) && handler.Threw? ==> RecordedError(t.attributes.name, handler) == handler.stack
    ensures !HasHandler(t.attributes.name) ==> RecordedError(t.attributes.name, handler) == UNDEFINED_HANDLER_STACK
  {
  }

  /**
   * Runs the task's handler and records the outcome: one execution result
   * dated `now`, with status executed and no error on success, or the
   * task's own status and the error's stack on failure. Never fails.
   */
  method Execute(repo: TaskRepository, task: Task, now: Time, handler: HandlerOutcome)
    requires repo.Valid()
    modifies repo
    ensures repo.Valid() && repo.nextId == old(repo.nextId)
    ensures Pushed(old(repo.tasks), task.id, RecordedStatus(task, handler),
                   ExecutionResult(now, RecordedError(task.attributes.name, handler)), repo.tasks)
    ensures forall i :: 0 <= i < |repo.tasks| && repo.tasks[i].id == task.id ==>
              |repo.tasks[i].attributes.executionResults| == |old(repo.tasks)[i].attributes.executionResults| + 1
    ensures TotalBudget(repo.tasks) == TotalBudget(old(repo.tasks))
  {
    if Succeeds(task.attributes.name, handler) {
      var result := ExecutionResult(now, "");
      repo.PushExecutionResultById(task.id, Executed, result);
    } else {
      var stack := if HasHandler(task.attributes.name) then handler.stack else UNDEFINED_HANDLER_STACK;
      var result := ExecutionResult(now, stack);
      repo.PushExecutionResultById(task.id, task.attributes.status, result);
    }
  }

  /**
   * Claims the next executable task of `name` and executes it. When no
   * task can be claimed the failure is swallowed, no handler runs and the
   * store is unchanged; otherwise the claimed task ends with the try
   * counted and the execution recorded, and no other task changes.
   */
  method ExecuteByName(repo: TaskRepository, name: TaskName, now: Time, handler: HandlerOutcome)
    requires repo.Valid()
    modifies repo
    ensures repo.Valid() && repo.nextId == old(repo.nextId)
    ensures (forall j :: 0 <= j < |old(repo.tasks)| ==> !Executable(old(repo.tasks)[j], name, now)) ==>
              repo.tasks == old(repo.tasks)
    ensures !(forall j :: 0 <= j < |old(repo.tasks)| ==> !Executable(old(repo.tasks)[j], name, now)) ==>
              exists k: nat :: IsNextToRun(old(repo.tasks), name, now, k)
                && repo.tasks == old(repo.tasks)[k := WithResult(Claimed(old(repo.tasks)[k], now),
                     RecordedStatus(Claimed(old(repo.tasks)[k], now), handler),
                     ExecutionResult(now, RecordedError(name, handler)))]
    ensures TotalBudget(repo.tasks) == TotalBudget(old(repo.tasks))
  {
    var claimed := repo.ExecuteOneByName(name, now);
    if claimed.Ok? {
      ghost var before := old(repo.tasks);
      ghost var k: nat :| IsNextToRun(before, name, now, k) && claimed.value == Claimed(before[k], now)
                          && repo.tasks == before[k := claimed.value];
      ghost var middle := repo.tasks;
      Execute(repo, claimed.value, now, handler);
      ghost var expected := before[k := WithResult(claimed.value, RecordedStatus(claimed.value, handler),
                                  ExecutionResult(now, RecordedError(name, handler)))];
      assert forall i :: 0 <= i < |before| ==> repo.tasks[i] == expected[i] by {
        forall i | 0 <= i < |before| ensures repo.tasks[i] == expected[i] {
          if i != k {
            assert middle[i].id != middle[k].id;
          }
        }
      }
      assert repo.tasks == expected;
    }
  }

  /** Puts stale running tasks with tries remaining back to ready. */
  method RetryTasks(repo: TaskRepository, intervalInMinutes: int, now: Time)
    requires repo.Valid()
    modifies repo
    ensures repo.Valid() && repo.nextId == old(repo.nextId)
    ensures repo.tasks == Retried(old(repo.tasks), Threshold(intervalInMinutes, now))
  {
    repo.Retry(intervalInMinutes, now);
  }

  /** The error text of a task's most recent execution, or empty when it never ran. */
  function LastResultError(t: Task): (e: string)
    ensures t.attributes.executionResults == [] ==> e == ""
    ensures t.attributes.executionResults != [] ==> e == t.attributes.executionResults[|t.attributes.executionResults| - 1].error
  {
    var results := t.attributes.executionResults;
    if |results| > 0 then results[|results| - 1].error else ""
  }

  /** The report of an aborted task names the error its last execution recorded. */
  lemma LastResultAfterExecution(t: Task, now: Time, handler: HandlerOutcome)
    ensures LastResultError(WithResult(t, RecordedStatus(t, handler), ExecutionResult(now, RecordedError(t.attributes.name, handler))))
            == RecordedError(t.attributes.name, handler)
  {
  }

  /** The report sent to the developers when a task is aborted. */
  datatype AbortReport = AbortReport(
    subject: string,
    id: nat,
    name: TaskName,
    runsAt: Time,
    lastTriedAt: Option<Time>,
    numberOfTried: int,
    lastResult: string)

  function ReportOf(t: Task): (r: AbortReport)
    ensures r.subject == ABORT_REPORT_SUBJECT && r.id == t.id && r.lastResult == LastResultError(t)
    ensures r.name == t.attributes.name && r.runsAt == t.attributes.runsAt
    ensures r.lastTriedAt == t.attributes.lastTriedAt && r.numberOfTried == t.attributes.numberOfTried
  {
    AbortReport(ABORT_REPORT_SUBJECT, t.id, t.attributes.name, t.attributes.runsAt,
                t.attributes.lastTriedAt, t.attributes.numberOfTried, LastResultError(t))
  }

  /** The developers' mailbox: every report sent, in order. */
  class Notifier {
    var reports: seq<AbortReport>

    constructor ()
      ensures reports == []
    {
      reports := [];
    }

    /** Sends a report; `reply` is whether the mail service accepted it. */
    method Report2Developers(report: AbortReport, reply: Outcome) returns (r: Outcome)
      modifies this
      ensures reports == old(reports) + [report]
      ensures r == reply
    {
      reports := reports + [report];
      r := reply;
    }
  }

  /**
   * Aborts one exhausted stale task and reports it. When there is none the
   * NotFound failure propagates and no report is sent; otherwise exactly
   * one report about the aborted task is sent and its outcome returned.
   */
  method Abort(repo: TaskRepository, notifier: Notifier, intervalInMinutes: int, now: Time, reply: Outcome)
    returns (r: Outcome)
    requires repo.Valid()
    modifies repo, notifier
    ensures repo.Valid() && repo.nextId == old(repo.nextId)
    ensures (forall j :: 0 <= j < |old(repo.tasks)| ==> !Abortable(old(repo.tasks)[j], Threshold(intervalInMinutes, now))) ==>
              r == Fail(NotFound("abortable task")) && repo.tasks == old(repo.tasks) && notifier.reports == old(notifier.reports)
    ensures !(forall j :: 0 <= j < |old(repo.tasks)| ==> !Abortable(old(repo.tasks)[j], Threshold(intervalInMinutes, now))) ==>
              r == reply
              && (exists k: nat :: IsFirstAbortable(old(repo.tasks), Threshold(intervalInMinutes, now), k)
                    && repo.tasks == old(repo.tasks)[k := WithStatus(old(repo.tasks)[k], Aborted)]
                    && notifier.reports == old(notifier.reports) + [ReportOf(repo.tasks[k])])
  {
    var aborted := repo.AbortOne(intervalInMinutes, now);
    if aborted.Err? {
      r := Fail(aborted.error);
    } else {
      r := notifier.Report2Developers(ReportOf(aborted.value), reply);
    }
  }
}
