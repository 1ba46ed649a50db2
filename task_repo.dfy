/**
 * The task queue store: task records with a status, a due time and a
 * retry budget. Workers claim the next due task of a name, stale running
 * tasks are put back to ready while tries remain, exhausted ones are
 * aborted, and execution results are appended to a task's history.
 * Every database update is one atomic step here.
 */
module TaskRepo {
  import opened Wrappers
  import opened Factory
  import opened Seqs

  datatype TaskStatus = Ready | Running | Executed | Aborted

  datatype TaskName = SendEmailMessage | MoneyTransfer | CancelMoneyTransfer

  /** What a task carries for its handler. */
  datatype TaskData =
      /** the e-mail message action to send, not modelled further */
    | SendEmailMessageData(message: string)
    | MoneyTransferData(actionAttributes: ActionAttributes)
    | CancelMoneyTransferData(transaction: Purpose)

  datatype ExecutionResult = ExecutionResult(executedAt: Time, error: string)

  datatype TaskAttributes = TaskAttributes(
    name: TaskName,
    status: TaskStatus,
    runsAt: Time,
    remainingNumberOfTries: int,
    lastTriedAt: Option<Time>,
    numberOfTried: int,
    executionResults: seq<ExecutionResult>,
    data: TaskData)

  datatype Task = Task(id: nat, attributes: TaskAttributes)

  /** A task's whole budget of tries: the ones left plus the ones made. */
  function Budget(a: TaskAttributes): int {
    a.remainingNumberOfTries + a.numberOfTried
  }

  function TotalBudget(tasks: seq<Task>): int {
    if tasks == [] then 0 else Budget(tasks[0].attributes) + TotalBudget(tasks[1..])
  }

  lemma {:induction false} TotalBudgetAppend(tasks: seq<Task>, t: Task)
    ensures TotalBudget(tasks + [t]) == TotalBudget(tasks) + Budget(t.attributes)
  {
    if tasks != [] {
      assert (tasks + [t])[1..] == tasks[1..] + [t];
      TotalBudgetAppend(tasks[1..], t);
    }
  }

  /** Two stores whose tasks have the same budgets one by one have the same total budget. */
  lemma {:induction false} TotalBudgetPointwise(a: seq<Task>, b: seq<Task>)
    requires |a| == |b|
    requires forall i :: 0 <= i < |a| ==> Budget(a[i].attributes) == Budget(b[i].attributes)
    ensures TotalBudget(a) == TotalBudget(b)
  {
    if a != [] {
      TotalBudgetPointwise(a[1..], b[1..]);
    }
  }

  // ---- claiming the next task ------------------------------------------------

  /** A task a worker for `name` may claim at `now`: ready, of that name and due strictly before now. */
  predicate Executable(t: Task, name: TaskName, now: Time) {
    t.attributes.status == Ready && t.attributes.runsAt < now && t.attributes.name == name
  }

  /** The execution order: fewer tries first, then the earlier due time. */
  predicate RunsNoLaterThan(a: Task, b: Task) {
    a.attributes.numberOfTried < b.attributes.numberOfTried
    || (a.attributes.numberOfTried == b.attributes.numberOfTried && a.attributes.runsAt <= b.attributes.runsAt)
  }

  /**
   * Index `k` holds the task that is claimed next: an executable task that
   * comes first in the execution order, the earliest stored among equals.
   */
  predicate IsNextToRun(tasks: seq<Task>, name: TaskName, now: Time, k: nat) {
    k < |tasks| && Executable(tasks[k], name, now)
    && (forall j :: 0 <= j < |tasks| && Executable(tasks[j], name, now) ==> RunsNoLaterThan(tasks[k], tasks[j]))
    && (forall j :: 0 <= j < k && Executable(tasks[j], name, now) ==> !RunsNoLaterThan(tasks[j], tasks[k]))
  }

  /** The query half of a claim: finds the executable task that comes first in the execution order. */
  method SelectNext(tasks: seq<Task>, name: TaskName, now: Time) returns (k: Option<nat>)
    ensures k.None? <==> forall j :: 0 <= j < |tasks| ==> !Executable(tasks[j], name, now)
    ensures k.Some? ==> IsNextToRun(tasks, name, now, k.value)
  {
    k := None;
    var i := 0;
    while i < |tasks|
      invariant 0 <= i <= |tasks|
      invariant k.None? ==> forall j :: 0 <= j < i ==> !Executable(tasks[j], name, now)
      invariant k.Some? ==> k.value < i && Executable(tasks[k.value], name, now)
      invariant k.Some? ==> forall j :: 0 <= j < i && Executable(tasks[j], name, now) ==> RunsNoLaterThan(tasks[k.value], tasks[j])
      invariant k.Some? ==> forall j :: 0 <= j < k.value && Executable(tasks[j], name, now) ==> !RunsNoLaterThan(tasks[j], tasks[k.value])
    {
      if Executable(tasks[i], name, now) && (k.None? || !RunsNoLaterThan(tasks[k.value], tasks[i])) {
        k := Some(i);
      }
      i := i + 1;
    }
  }

  /** A claimed task: running, tried now, one try moved from the remaining ones to the tried ones. */
  function Claimed(t: Task, now: Time): (r: Task)
    ensures r.id == t.id
    ensures r.attributes.status == Running && r.attributes.lastTriedAt == Some(now)
    ensures r.attributes.remainingNumberOfTries == t.attributes.remainingNumberOfTries - 1
    ensures r.attributes.numberOfTried == t.attributes.numberOfTried + 1
    ensures Budget(r.attributes) == Budget(t.attributes)
    ensures r.attributes.name == t.attributes.name && r.attributes.runsAt == t.attributes.runsAt
    ensures r.attributes.executionResults == t.attributes.executionResults && r.attributes.data == t.attributes.data
  {
    var a := t.attributes;
    t.(attributes := a.(
      status := Running,
      lastTriedAt := Some(now),
      remainingNumberOfTries := a.remainingNumberOfTries - 1,
      numberOfTried := a.numberOfTried + 1))
  }

  // ---- retrying and aborting stale tasks ------------------------------------

  /** The instant `intervalInMinutes` minutes before `now`. */
  function Threshold(intervalInMinutes: int, now: Time): int {
    now - intervalInMinutes * MINUTE
  }

  /** The task was last tried at a recorded date strictly before `threshold`. */
  predicate TriedBefore(t: Task, threshold: int) {
    t.attributes.lastTriedAt.Some? && t.attributes.lastTriedAt.value < threshold
  }

  predicate Retryable(t: Task, threshold: int) {
    t.attributes.status == Running && TriedBefore(t, threshold) && t.attributes.remainingNumberOfTries > 0
  }

  predicate Abortable(t: Task, threshold: int) {
    t.attributes.status == Running && TriedBefore(t, threshold) && t.attributes.remainingNumberOfTries == 0
  }

  function WithStatus(t: Task, status: TaskStatus): Task {
    t.(attributes := t.attributes.(status := status))
  }

  /**
   * The store after a retry sweep: exactly the retryable tasks are ready
   * again and nothing else about any task changes.
   */
  function Retried(tasks: seq<Task>, threshold: int): (r: seq<Task>)
    ensures |r| == |tasks|
    ensures forall i :: 0 <= i < |r| ==> r[i].id == tasks[i].id
    ensures forall i :: 0 <= i < |r| ==> r[i].attributes.(status := tasks[i].attributes.status) == tasks[i].attributes
    ensures forall i :: 0 <= i < |r| && Retryable(tasks[i], threshold) ==> r[i].attributes.status == Ready
    ensures forall i :: 0 <= i < |r| && !Retryable(tasks[i], threshold) ==> r[i] == tasks[i]
  {
    seq(|tasks|, i requires 0 <= i < |tasks| => if Retryable(tasks[i], threshold) then WithStatus(tasks[i], Ready) else tasks[i])
  }

  /** Index `k` holds the first stored abortable task. */
  predicate IsFirstAbortable(tasks: seq<Task>, threshold: int, k: nat) {
    k < |tasks| && Abortable(tasks[k], threshold)
    && forall j :: 0 <= j < k ==> !Abortable(tasks[j], threshold)
  }

  // ---- execution results ------------------------------------------------------

  /** The task with a new status and one more execution result at the end of its history. */
  function WithResult(t: Task, status: TaskStatus, result: ExecutionResult): (r: Task)
    ensures r.id == t.id && r.attributes.status == status
    ensures r.attributes.executionResults == t.attributes.executionResults + [result]
    ensures r.attributes.(status := t.attributes.status, executionResults := t.attributes.executionResults) == t.attributes
    ensures Budget(r.attributes) == Budget(t.attributes)
  {
    t.(attributes := t.attributes.(status := status, executionResults := t.attributes.executionResults + [result]))
  }

  /** `after` is `before` with `result` pushed onto the task with id `id` and its status set, if there is such a task. */
  ghost predicate Pushed(before: seq<Task>, id: nat, status: TaskStatus, result: ExecutionResult, after: seq<Task>) {
    |after| == |before|
    && forall i :: 0 <= i < |before| ==>
         after[i] == if before[i].id == id then WithResult(before[i], status, result) else before[i]
  }

  /** The task store. Ids are issued in increasing order and never reused. */
  class TaskRepository {
    var tasks: seq<Task>
    var nextId: nat

    ghost predicate Valid()
      reads this
    {
      (forall i :: 0 <= i < |tasks| ==> tasks[i].id < nextId)
      && (forall i, j :: 0 <= i < j < |tasks| ==> tasks[i].id != tasks[j].id)
    }

    constructor ()
      ensures Valid() && tasks == [] && nextId == 0
    {
      tasks := [];
      nextId := 0;
    }

    /** Stores a new task under a fresh id. */
    method Save(attributes: TaskAttributes) returns (t: Task)
      requires Valid()
      modifies this
      ensures Valid()
      ensures t == Task(old(nextId), attributes) && nextId == old(nextId) + 1
      ensures tasks == old(tasks) + [t]
      ensures TotalBudget(tasks) == TotalBudget(old(tasks)) + Budget(attributes)
    {
      t := Task(nextId, attributes);
      TotalBudgetAppend(tasks, t);
      tasks := tasks + [t];
      nextId := nextId + 1;
    }

    /**
     * Claims the next executable task of `name`: it becomes running, tried
     * now, with one try moved from remaining to tried; no other task
     * changes. Fails NotFound, changing nothing, when none is executable.
     */
    method ExecuteOneByName(name: TaskName, now: Time) returns (r: Result<Task>)
      requires Valid()
      modifies this
      ensures Valid() && nextId == old(nextId)
      ensures r.Err? <==> forall j :: 0 <= j < |old(tasks)| ==> !Executable(old(tasks)[j], name, now)
      ensures r.Err? ==> r.error == NotFound("executable task") && tasks == old(tasks)
      ensures r.Ok? ==> exists k: nat :: IsNextToRun(old(tasks), name, now, k)
                          && r.value == Claimed(old(tasks)[k], now)
                          && tasks == old(tasks)[k := r.value]
      ensures TotalBudget(tasks) == TotalBudget(old(tasks))
    {
      var k := SelectNext(tasks, name, now);
      if k.None? {
        r := Err(NotFound("executable task"));
      } else {
        ghost var before := tasks;
        var claimed := Claimed(tasks[k.value], now);
        tasks := tasks[k.value := claimed];
        TotalBudgetPointwise(before, tasks);
        r := Ok(claimed);
        assert IsNextToRun(before, name, now, k.value);
      }
    }

    /**
     * Puts every running task last tried more than `intervalInMinutes`
     * minutes before `now` and with tries remaining back to ready.
     */
    method Retry(intervalInMinutes: int, now: Time)
      requires Valid()
      modifies this
      ensures Valid() && nextId == old(nextId)
      ensures tasks == Retried(old(tasks), Threshold(intervalInMinutes, now))
      ensures TotalBudget(tasks) == TotalBudget(old(tasks))
    {
      var threshold := Threshold(intervalInMinutes, now);
      ghost var target := Retried(tasks, threshold);
      var i := 0;
      while i < |tasks|
        invariant 0 <= i <= |tasks| == |old(tasks)| == |target|
        invariant forall j :: 0 <= j < i ==> tasks[j] == target[j]
        invariant forall j :: i <= j < |tasks| ==> tasks[j] == old(tasks)[j]
        invariant nextId == old(nextId)
      {
        if Retryable(tasks[i], threshold) {
          tasks := tasks[i := WithStatus(tasks[i], Ready)];
        }
        i := i + 1;
      }
      assert tasks == target;
      TotalBudgetPointwise(old(tasks), tasks);
    }

    /**
     * Marks the first running task that has no tries left and was last
     * tried more than `intervalInMinutes` minutes before `now` as aborted,
     * or fails NotFound, changing nothing, when there is none.
     */
    method AbortOne(intervalInMinutes: int, now: Time) returns (r: Result<Task>)
      requires Valid()
      modifies this
      ensures Valid() && nextId == old(nextId)
      ensures r.Err? <==> forall j :: 0 <= j < |old(tasks)| ==> !Abortable(old(tasks)[j], Threshold(intervalInMinutes, now))
      ensures r.Err? ==> r.error == NotFound("abortable task") && tasks == old(tasks)
      ensures r.Ok? ==> exists k: nat :: IsFirstAbortable(old(tasks), Threshold(intervalInMinutes, now), k)
                          && r.value == WithStatus(old(tasks)[k], Aborted)
                          && tasks == old(tasks)[k := r.value]
      ensures TotalBudget(tasks) == TotalBudget(old(tasks))
    {
      var threshold := Threshold(intervalInMinutes, now);
      var k := FirstIndex(tasks, (t: Task) => Abortable(t, threshold));
      if k.None? {
        r := Err(NotFound("abortable task"));
      } else {
        ghost var before := tasks;
        var aborted := WithStatus(tasks[k.value], Aborted);
        tasks := tasks[k.value := aborted];
        TotalBudgetPointwise(before, tasks);
        r := Ok(aborted);
        assert IsFirstAbortable(before, threshold, k.value);
      }
    }

    /**
     * Sets the status of the task with id `id` and appends `result` to its
     * execution results; an unknown id changes nothing and is not reported.
     */
    method PushExecutionResultById(id: nat, status: TaskStatus, result: ExecutionResult)
      requires Valid()
      modifies this
      ensures Valid() && nextId == old(nextId)
      ensures Pushed(old(tasks), id, status, result, tasks)
      ensures TotalBudget(tasks) == TotalBudget(old(tasks))
    {
      var k := FirstIndex(tasks, (t: Task) => t.id == id);
      if k.Some? {
        ghost var before := tasks;
        tasks := tasks[k.value := WithResult(tasks[k.value], status, result)];
        TotalBudgetPointwise(before, tasks);
      }
    }
  }
}
