/** The in-memory table of import tasks: creation, progress updates, completion, failure, the
    progress report (percentage, elapsed time, speed and remaining time) and the removal of
    old tasks. The wall clock is an integer parameter in seconds; the rounding of the
    reported numbers is not modelled, so each one is the exact fraction it is rounded from. */
module ProgressTracking {
  import opened Wrappers

  datatype Status = Processing | Completed | Failed

  /** The message a new task starts with. */
  const PREPARING_MESSAGE: string := "准备导入..."

  /** The age past which `cleanup_old_tasks` drops a task unless told otherwise. */
  const DEFAULT_MAX_AGE: int := 3600

  /** One entry of the table. */
  datatype Task = Task(status: Status, progress: int, total: int, message: string, startTime: int)

  /** A new task: processing, nothing done yet, started now. */
  function NewTask(total: int, now: int): (t: Task)
    ensures t.status == Processing && t.progress == 0 && t.total == total && t.startTime == now
  {
    Task(Processing, 0, total, PREPARING_MESSAGE, now)
  }

  /** `update_progress` on an existing task: the progress always, the total and the message
      only when given. */
  function Updated(t: Task, progress: int, total: Option<int>, message: Option<string>): (r: Task)
    ensures r.progress == progress && r.status == t.status && r.startTime == t.startTime
    ensures r.total == total.GetOr(t.total) && r.message == message.GetOr(t.message)
  {
    t.(progress := progress, total := total.GetOr(t.total), message := message.GetOr(t.message))
  }

  /** `complete_task` on an existing task: done, with the progress raised (or lowered) to the
      total. */
  function CompletedTask(t: Task, message: string): (r: Task)
    ensures r.status == Completed && r.progress == r.total == t.total && r.message == message
    ensures r.startTime == t.startTime
  {
    t.(status := Completed, message := message, progress := t.total)
  }

  /** `fail_task` on an existing task: failed, with the progress and total it had. */
  function FailedTask(t: Task, message: string): (r: Task)
    ensures r.status == Failed && r.message == message
    ensures r.progress == t.progress && r.total == t.total && r.startTime == t.startTime
  {
    t.(status := Failed, message := message)
  }

  /** An exact quotient `num / den`, `den != 0`: a reported number before Python rounds it. */
  datatype Ratio = Ratio(num: int, den: int)

  const ZERO: Ratio := Ratio(0, 1)

  /** The ratio is the whole number `q`. */
  predicate IsWhole(r: Ratio, q: int) {
    r.den != 0 && r.num == q * r.den
  }

  /** The copy `get_progress` returns: the task, the percentage done, the seconds since it
      started, the remaining time and the rows per second. */
  datatype Report = Report(task: Task, percentage: Ratio, elapsed: int, eta: Ratio, speed: Ratio)

  /** `progress / elapsed` raises ZeroDivisionError when a task with work done is read in the
      second it started. */
  datatype ReportError = ZeroElapsed

  /** The report on a task at time `now`. The percentage is `progress / total * 100` when the
      total is positive and 0 otherwise; the speed is `progress / elapsed` and the remaining
      time `(total - progress) / speed` (0 when the speed is not positive), both only when
      progress and total are positive, 0 otherwise. */
  function Describe(t: Task, now: int): (r: Result<Report, ReportError>)
    ensures r.Err? <==> t.progress > 0 && t.total > 0 && now == t.startTime
    ensures r.Ok? ==> r.value.task == t && r.value.elapsed == now - t.startTime
    ensures r.Ok? && t.total <= 0 ==> r.value.percentage == ZERO
    ensures r.Ok? && t.total > 0 ==> r.value.percentage == Ratio(t.progress * 100, t.total)
    ensures r.Ok? && !(t.progress > 0 && t.total > 0) ==> r.value.eta == ZERO && r.value.speed == ZERO
    ensures r.Ok? && t.progress > 0 && t.total > 0 ==>
              && r.value.speed == Ratio(t.progress, now - t.startTime)
              && (now > t.startTime ==> r.value.eta == Ratio((t.total - t.progress) * (now - t.startTime), t.progress))
              && (now < t.startTime ==> r.value.eta == ZERO)
  {
    var percentage := if t.total > 0 then Ratio(t.progress * 100, t.total) else ZERO;
    var elapsed := now - t.startTime;
    if t.progress > 0 && t.total > 0 then
      if elapsed == 0 then Err(ZeroElapsed)
      else
        var speed := Ratio(t.progress, elapsed);
        // `speed > 0` exactly when the elapsed time is, the progress being positive
        var eta := if elapsed > 0 then Ratio((t.total - t.progress) * elapsed, t.progress) else ZERO;
        Ok(Report(t, percentage, elapsed, eta, speed))
    else Ok(Report(t, percentage, elapsed, ZERO, ZERO))
  }

  /** `now - start_time > max_age`, strictly. */
  predicate Expired(t: Task, now: int, maxAge: int) {
    now - t.startTime > maxAge
  }

  /** The table `cleanup_old_tasks` leaves: the tasks that have not expired, unchanged. */
  function Unexpired(tasks: map<string, Task>, now: int, maxAge: int): (r: map<string, Task>)
    ensures forall id :: id in r <==> id in tasks && !Expired(tasks[id], now, maxAge)
    ensures forall id :: id in r ==> r[id] == tasks[id]
  {
    map id | id in tasks && !Expired(tasks[id], now, maxAge) :: tasks[id]
  }

  /** A completed task with a positive total reports exactly 100 percent. */
  lemma CompletedReportsFullPercentage(t: Task, message: string, now: int)
    requires t.total > 0 && now != t.startTime
    ensures var r := Describe(CompletedTask(t, message), now);
            r.Ok? && IsWhole(r.value.percentage, 100)
  {
  }

  /** Completing a task does not remove the division by zero: a completed task with a positive
      total still raises when it is read in the second it started. */
  lemma CompletedStillDividesInItsFirstSecond(t: Task, message: string)
    requires t.total > 0
    ensures Describe(CompletedTask(t, message), t.startTime) == Err(ZeroElapsed)
  {
  }

  /** With progress between 0 and a positive total, the percentage lies between 0 and 100. */
  lemma PercentageWithinBounds(t: Task, now: int)
    requires 0 <= t.progress <= t.total && t.total > 0
    requires Describe(t, now).Ok?
    ensures var p := Describe(t, now).value.percentage;
            p.den > 0 && 0 <= p.num <= 100 * p.den
  {
  }

  /** Failing a task changes neither its percentage, speed nor remaining time. */
  lemma FailingKeepsTheNumbers(t: Task, message: string, now: int)
    ensures var before, after := Describe(t, now), Describe(FailedTask(t, message), now);
            && before.Ok? == after.Ok?
            && (before.Ok? ==> && after.value.percentage == before.value.percentage
                               && after.value.eta == before.value.eta
                               && after.value.speed == before.value.speed)
  {
  }

  /** A new task reports 0 percent, no speed and no remaining time, whenever it is read. */
  lemma NewTaskReportsNothingDone(total: int, created: int, now: int)
    ensures var r := Describe(NewTask(total, created), now);
            && r.Ok?
            && IsWhole(r.value.percentage, 0) && r.value.eta == ZERO && r.value.speed == ZERO
  {
  }

  /** Cleaning up twice at the same time is cleaning up once. */
  lemma UnexpiredIdempotent(tasks: map<string, Task>, now: int, maxAge: int)
    ensures Unexpired(Unexpired(tasks, now, maxAge), now, maxAge) == Unexpired(tasks, now, maxAge)
  {
  }

  /** A task created at `now` survives a cleanup at `now` with a non-negative age limit. */
  lemma NewTaskSurvivesCleanup(tasks: map<string, Task>, id: string, total: int, now: int,
                               maxAge: int)
    requires maxAge >= 0
    ensures id in Unexpired(tasks[id := NewTask(total, now)], now, maxAge)
  {
  }

  /** The tracker: one table of tasks keyed by id. */
  class ProgressTracker {
    var tasks: map<string, Task>

    constructor()
      ensures tasks == map[]
    {
      tasks := map[];
    }

    /** `create_task`: sets, or replaces, the entry of `id`. */
    method CreateTask(id: string, total: int, now: int)
      modifies this
      ensures tasks == old(tasks)[id := NewTask(total, now)]
    {
      tasks := tasks[id := Task(Processing, 0, total, PREPARING_MESSAGE, now)];
    }

    /** `update_progress`: nothing happens to an unknown id. */
    method UpdateProgress(id: string, progress: int, total: Option<int>, message: Option<string>)
      modifies this
      ensures id !in old(tasks) ==> tasks == old(tasks)
      ensures id in old(tasks) ==> tasks == old(tasks)[id := Updated(old(tasks)[id], progress, total, message)]
    {
      if id in tasks {
        var t := tasks[id].(progress := progress);
        if total.Some? {
          t := t.(total := total.value);
        }
        if message.Some? {
          t := t.(message := message.value);
        }
        tasks := tasks[id := t];
      }
    }

    /** `complete_task`: nothing happens to an unknown id. */
    method CompleteTask(id: string, message: string)
      modifies this
      ensures id !in old(tasks) ==> tasks == old(tasks)
      ensures id in old(tasks) ==> tasks == old(tasks)[id := CompletedTask(old(tasks)[id], message)]
    {
      if id in tasks {
        var t := tasks[id].(status := Completed);
        t := t.(message := message);
        t := t.(progress := t.total);
        tasks := tasks[id := t];
      }
    }

    /** `fail_task`: nothing happens to an unknown id. */
    method FailTask(id: string, message: string)
      modifies this
      ensures id !in old(tasks) ==> tasks == old(tasks)
      ensures id in old(tasks) ==> tasks == old(tasks)[id := FailedTask(old(tasks)[id], message)]
    {
      if id in tasks {
        var t := tasks[id].(status := Failed);
        t := t.(message := message);
        tasks := tasks[id := t];
      }
    }

    /** `get_progress`: `None` for an unknown id; otherwise the report on a copy of the entry,
        which stays as it was. */
    method GetProgress(id: string, now: int) returns (r: Option<Result<Report, ReportError>>)
      ensures r.None? <==> id !in tasks
      ensures r.Some? ==> r.value == Describe(tasks[id], now)
    {
      if id !in tasks {
        return None;
      }
      var task := tasks[id];
      var percentage := ZERO;
      if task.total > 0 {
        percentage := Ratio(task.progress * 100, task.total);
      }
      var elapsed := now - task.startTime;
      var eta, speed := ZERO, ZERO;
      if task.progress > 0 && task.total > 0 {
        if elapsed == 0 {
          return Some(Err(ZeroElapsed));
        }
        speed := Ratio(task.progress, elapsed);
        if elapsed > 0 {
          eta := Ratio((task.total - task.progress) * elapsed, task.progress);
        }
      }
      return Some(Ok(Report(task, percentage, elapsed, eta, speed)));
    }

    /** `cleanup_old_tasks`: collects the expired ids, then deletes them one by one. */
    method CleanupOldTasks(now: int, maxAge: int)
      modifies this
      ensures tasks == Unexpired(old(tasks), now, maxAge)
    {
      var expired := set id | id in tasks && Expired(tasks[id], now, maxAge);
      var pending := expired;
      while pending != {}
        invariant pending <= expired
        invariant tasks == old(tasks) - (expired - pending)
        decreases pending
      {
        var id :| id in pending;
        tasks := tasks - {id};
        pending := pending - {id};
      }
      assert tasks == Unexpired(old(tasks), now, maxAge);
    }
  }
}
