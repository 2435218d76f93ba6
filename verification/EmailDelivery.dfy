/**
  The e-mail task: count the attempt, call the provider, mark the result, each in a transaction of its own.
  First the job row and one task running alone, then any number of tasks step by step with crashes.
*/
module EmailDelivery {
  import opened Wrappers
  import opened Sums

  type Time = int
  datatype Status = Queued | Sent | Failed
  datatype Job = Job(
    status: Status, retryCount: int, error: Option<string>, sentAt: Option<Time>, lastAttempt: Option<Time>)

  const MAX_RETRIES: nat := 3

  // ---- the writes of the three transactions ----------------------------------------------------------

  function CountedJob(job: Job, now: Time): Job { job.(retryCount := job.retryCount + 1, lastAttempt := Some(now)) }

  function FailedJob(job: Job, now: Time, error: string): Job {
    job.(status := Failed, error := Some(if |error| > 1000 then error[..1000] else error), lastAttempt := Some(now))
  }

  function SentJob(job: Job, now: Time): Job { job.(status := Sent, sentAt := Some(now), error := None) }

  // ---- one task, alone -------------------------------------------------------------------------------

  /** How one attempt fares: whether its first commit, the provider call and its last commit succeed. */
  datatype Try = Try(counts: bool, delivers: bool, marks: bool, countedAt: Time, doneAt: Time, error: string)

  datatype Result = Missing | AlreadySent | Done | Raised

  datatype Attempted = Attempted(job: Option<Job>, calls: nat, delivered: nat, result: Result)

  /** One run of _send_email_job. */
  function Attempt(job: Option<Job>, try: Try): Attempted {
    if !try.counts then Attempted(job, 0, 0, Raised)
    else if job.None? then Attempted(job, 0, 0, Missing)
    else if job.value.status.Sent? then Attempted(job, 0, 0, AlreadySent)
    else
      var counted := CountedJob(job.value, try.countedAt);
      if try.delivers then
        if try.marks then Attempted(Some(SentJob(counted, try.doneAt)), 1, 1, Done)
        else Attempted(Some(counted), 1, 1, Raised)
      else if try.marks then Attempted(Some(FailedJob(counted, try.doneAt, try.error)), 1, 0, Raised)
      else Attempted(Some(counted), 1, 0, Raised)
  }

  /** send_email_job from its `retries`-th retry on. */
  function TaskFrom(job: Option<Job>, script: nat -> Try, retries: nat): Attempted
    requires retries <= MAX_RETRIES
    decreases MAX_RETRIES - retries
  {
    var first := Attempt(job, script(retries));
    if first.result.Raised? && retries < MAX_RETRIES then
      var rest := TaskFrom(first.job, script, retries + 1);
      rest.(calls := first.calls + rest.calls, delivered := first.delivered + rest.delivered)
    else first
  }

  class EmailWorker {
    var job: Option<Job>

    constructor (job: Option<Job>)
      ensures this.job == job
    {
      this.job := job;
    }

    method SendOnce(try: Try) returns (calls: nat, delivered: nat, result: Result)
      modifies this
      ensures Attempted(job, calls, delivered, result) == Attempt(old(job), try) && calls <= 1
    {
      calls, delivered := 0, 0;
      if !try.counts { return 0, 0, Raised; }
      if job.None? { return 0, 0, Missing; }
      if job.value.status.Sent? { return 0, 0, AlreadySent; }
      job := Some(CountedJob(job.value, try.countedAt));
      calls := 1;
      if !try.delivers {
        if try.marks { job := Some(FailedJob(job.value, try.doneAt, try.error)); }
        return calls, 0, Raised;
      }
      delivered := 1;
      if !try.marks { return calls, delivered, Raised; }
      job := Some(SentJob(job.value, try.doneAt));
      result := Done;
    }

    /** The task with its retries. */
    method Send(script: nat -> Try) returns (calls: nat, delivered: nat, result: Result)
      modifies this
      ensures Attempted(job, calls, delivered, result) == TaskFrom(old(job), script, 0)
      ensures calls <= 4
    {
      hide Attempt;
      calls, delivered, result := SendOnce(script(0));
      var retries := 0;
      while result.Raised? && retries < MAX_RETRIES
        invariant retries <= MAX_RETRIES && calls <= retries + 1
        invariant var rest := TaskFrom(old(job), script, 0);
                  if result.Raised? && retries < MAX_RETRIES then
                    var more := TaskFrom(job, script, retries + 1);
                    rest == more.(calls := calls + more.calls, delivered := delivered + more.delivered)
                  else rest == Attempted(job, calls, delivered, result)
        decreases MAX_RETRIES - retries
      {
        retries := retries + 1;
        var c, d, r := SendOnce(script(retries));
        calls, delivered, result := calls + c, delivered + d, r;
      }
    }
  }

  /** What one attempt on an unsent job leaves in the row, field by field, and what it reports. */
  lemma {:induction false} AttemptMeaning(job: Job, try: Try)
    requires try.counts && job.status != Sent
    ensures var n := job.retryCount + 1;
            var text := if |try.error| > 1000 then try.error[..1000] else try.error;
            Attempt(Some(job), try) ==
            if try.delivers && try.marks then
              Attempted(Some(Job(Sent, n, None, Some(try.doneAt), Some(try.countedAt))), 1, 1, Done)
            else if try.delivers then
              Attempted(Some(Job(job.status, n, job.error, job.sentAt, Some(try.countedAt))), 1, 1, Raised)
            else if try.marks then
              Attempted(Some(Job(Failed, n, Some(text), job.sentAt, Some(try.doneAt))), 1, 0, Raised)
            else Attempted(Some(Job(job.status, n, job.error, job.sentAt, Some(try.countedAt))), 1, 0, Raised)
  {
  }

  /** A task whose every attempt fails calls four times and then gives up. */
  lemma {:induction false} FailingTaskCallsFourTimes(job: Job, script: nat -> Try, retries: nat)
    requires retries <= 3 && job.status != Sent && forall i: nat :: script(i).counts && !script(i).delivers
    ensures var end := TaskFrom(Some(job), script, retries); end.calls == 4 - retries && end.result == Raised
    decreases 3 - retries
  {
    if retries < 3 {
      FailingTaskCallsFourTimes(Attempt(Some(job), script(retries)).job.value, script, retries + 1);
    }
  }

  /**
    One task, running alone, calls the provider at most four times, counts every call, and never calls for a
    job that is sent; it ends as sent exactly when its last call was delivered and marked.
  */
  lemma {:induction false} OneTaskAlone(job: Option<Job>, script: nat -> Try, retries: nat)
    requires retries <= MAX_RETRIES
    ensures var end := TaskFrom(job, script, retries);
            && end.delivered <= end.calls <= MAX_RETRIES + 1 - retries
            && (job.Some? <==> end.job.Some?)
            && (job.Some? ==> end.job.value.retryCount == job.value.retryCount + end.calls)
            && (job.Some? && job.value.status.Sent? ==> end.calls == 0 && end.job == job)
            && (end.result.Done? ==> end.job.Some? && end.job.value.status.Sent? && end.delivered >= 1)
            && (end.job.Some? && end.job.value.status.Sent? && !job.value.status.Sent? ==> end.result.Done?)
    decreases MAX_RETRIES - retries
  {
    hide Attempt;
    var first := Attempt(job, script(retries));
    OneAttempt(job, script(retries));
    if first.result.Raised? && retries < MAX_RETRIES {
      OneTaskAlone(first.job, script, retries + 1);
    }
  }

  lemma {:induction false} OneAttempt(job: Option<Job>, try: Try)
    ensures var end := Attempt(job, try);
            && end.delivered <= end.calls <= 1
            && (job.Some? <==> end.job.Some?)
            && (job.Some? ==> end.job.value.retryCount == job.value.retryCount + end.calls)
            && (job.Some? && job.value.status.Sent? ==> end.calls == 0 && end.job == job)
            && (end.result.Done? ==> end.job.Some? && end.job.value.status.Sent? && end.delivered == 1)
            && (end.job.Some? && end.job.value.status.Sent? && !job.value.status.Sent? ==> end.result.Done?)
  {
  }

  /** The recipient gets one mail at most, unless a delivered attempt cannot mark its job. */
  lemma {:induction false} OneTaskDeliversOnce(job: Option<Job>, script: nat -> Try, retries: nat)
    requires retries <= MAX_RETRIES
    requires forall i: nat :: script(i).delivers ==> script(i).marks
    ensures TaskFrom(job, script, retries).delivered <= 1
    decreases MAX_RETRIES - retries
  {
    var first := Attempt(job, script(retries));
    if first.result.Raised? && retries < MAX_RETRIES {
      OneTaskDeliversOnce(first.job, script, retries + 1);
    }
  }

  // ---- many tasks, step by step ----------------------------------------------------------------------

  type TaskId = nat
  type Retries = n: nat | n <= MAX_RETRIES

  datatype Task =
    | Ready(retries: Retries)
    | Counted(retries: Retries)  // the attempt is committed, the call not yet made
    | Calling(retries: Retries)
    | Returned(retries: Retries, ok: bool)

  /** `dispatched`, `started` and `succeeded` count the tasks handed out and the provider calls begun and completed. */
  datatype Sys = Sys(job: Option<Job>, tasks: map<TaskId, Task>, dispatched: nat, started: nat, succeeded: nat)

  datatype Event =
    | Dispatch(t: TaskId)
    | Count(t: TaskId, now: Time)
    | CountRaises(t: TaskId)
    | StartCall(t: TaskId)
    | EndCall(t: TaskId, ok: bool)
    | MarkIt(t: TaskId, now: Time, error: string)
    | MarkRaises(t: TaskId)
    | Crash(t: TaskId)
    | EnqueueRaises(error: string)  // the API process, after the broker refused or lost its answer

  function Without(s: Sys, t: TaskId): Sys { s.(tasks := s.tasks - {t}) }

  /** An exception: the task is retried or given up. */
  function Retry(s: Sys, t: TaskId, retries: Retries): Sys {
    if retries < MAX_RETRIES then s.(tasks := s.tasks[t := Ready(retries + 1)]) else Without(s, t)
  }

  /** One step; a step that cannot be taken changes nothing. */
  function Do(s: Sys, e: Event): Sys {
    match e
    case Dispatch(t) =>
      if t in s.tasks then s else s.(tasks := s.tasks[t := Ready(0)], dispatched := s.dispatched + 1)
    case Count(t, now) =>
      if t !in s.tasks || !s.tasks[t].Ready? then s
      else if s.job.None? || s.job.value.status.Sent? then Without(s, t)
      else s.(job := Some(CountedJob(s.job.value, now)), tasks := s.tasks[t := Counted(s.tasks[t].retries)])
    case CountRaises(t) => if t in s.tasks && s.tasks[t].Ready? then Retry(s, t, s.tasks[t].retries) else s
    case StartCall(t) =>
      if t in s.tasks && s.tasks[t].Counted? then
        s.(tasks := s.tasks[t := Calling(s.tasks[t].retries)], started := s.started + 1)
      else s
    case EndCall(t, ok) =>
      if t in s.tasks && s.tasks[t].Calling? then
        s.(tasks := s.tasks[t := Returned(s.tasks[t].retries, ok)], succeeded := s.succeeded + if ok then 1 else 0)
      else s
    case MarkIt(t, now, error) =>
      if t !in s.tasks || !s.tasks[t].Returned? then s
      else if s.tasks[t].ok then
        Without(s.(job := if s.job.Some? then Some(SentJob(s.job.value, now)) else None), t)
      else
        Retry(s.(job := if s.job.Some? then Some(FailedJob(s.job.value, now, error)) else None), t, s.tasks[t].retries)
    case MarkRaises(t) => if t in s.tasks && s.tasks[t].Returned? then Retry(s, t, s.tasks[t].retries) else s
    case Crash(t) => Without(s, t)
    case EnqueueRaises(error) =>
      s.(job := if s.job.Some? then
                  Some(s.job.value.(status := Failed, error := Some(if |error| > 1000 then error[..1000] else error)))
                else None)
  }

  function Exec(s: Sys, trace: seq<Event>): Sys {
    if trace == [] then s else Do(Exec(s, trace[..|trace| - 1]), trace[|trace| - 1])
  }

  /** Attempts a task may still begin to call, and its committed attempts not yet called. */
  function Budget(task: Task): int {
    MAX_RETRIES - task.retries + if task.Ready? || task.Counted? then 1 else 0
  }

  function Pending(task: Task): int { if task.Counted? then 1 else 0 }

  ghost function Budgets(tasks: map<TaskId, Task>): map<TaskId, int> { map t | t in tasks :: Budget(tasks[t]) }

  ghost function Pendings(tasks: map<TaskId, Task>): map<TaskId, int> { map t | t in tasks :: Pending(tasks[t]) }

  /** Every call was counted before it began, and no task calls more than four times. */
  ghost predicate CallsCounted(s: Sys) {
    && s.started + Sum(Pendings(s.tasks)) <= (if s.job.Some? then s.job.value.retryCount else 0)
    && s.started + Sum(Budgets(s.tasks)) <= (MAX_RETRIES + 1) * s.dispatched
  }

  /** A sent job, and a task about to mark it sent, have a successful call behind them. */
  ghost predicate SentMeansDelivered(s: Sys) {
    && (s.job.Some? && s.job.value.status.Sent? ==> s.succeeded >= 1)
    && (forall t :: t in s.tasks && s.tasks[t].Returned? && s.tasks[t].ok ==> s.succeeded >= 1)
  }

  /**
    However many tasks run, are retried or crash: provider calls never exceed the committed retry_count nor
    four per dispatched task, and a job marked sent had a successful call.
  */
  lemma {:induction false} DeliveryIsAccounted(s: Sys, trace: seq<Event>)
    requires CallsCounted(s) && SentMeansDelivered(s)
    ensures CallsCounted(Exec(s, trace)) && SentMeansDelivered(Exec(s, trace))
    ensures var end := Exec(s, trace);
            && end.started <= (if end.job.Some? then end.job.value.retryCount else 0)
            && end.started <= (MAX_RETRIES + 1) * end.dispatched
  {
    if trace != [] {
      var n := |trace| - 1;
      DeliveryIsAccounted(s, trace[..n]);
      StepKeepsCounts(Exec(s, trace[..n]), trace[n]);
      StepKeepsSent(Exec(s, trace[..n]), trace[n]);
    }
    TotalsAreNatural(Exec(s, trace).tasks);
  }

  lemma {:induction false} TotalsAreNatural(tasks: map<TaskId, Task>)
    ensures Sum(Budgets(tasks)) >= 0 && Sum(Pendings(tasks)) >= 0
  {
    SumOfPart(map[], Budgets(tasks));
    SumOfPart(map[], Pendings(tasks));
  }

  lemma {:induction false} StepKeepsSent(s: Sys, e: Event)
    requires SentMeansDelivered(s)
    ensures SentMeansDelivered(Do(s, e))
  {
  }

  lemma {:induction false} SetTask(tasks: map<TaskId, Task>, t: TaskId, task: Task)
    ensures Sum(Budgets(tasks[t := task]))
         == Sum(Budgets(tasks)) - (if t in tasks then Budget(tasks[t]) else 0) + Budget(task)
    ensures Sum(Pendings(tasks[t := task]))
         == Sum(Pendings(tasks)) - (if t in tasks then Pending(tasks[t]) else 0) + Pending(task)
  {
    assert Budgets(tasks[t := task]) == Budgets(tasks)[t := Budget(task)];
    assert Pendings(tasks[t := task]) == Pendings(tasks)[t := Pending(task)];
    SumUpdate(Budgets(tasks), t, Budget(task));
    SumUpdate(Pendings(tasks), t, Pending(task));
  }

  lemma {:induction false} DropTask(tasks: map<TaskId, Task>, t: TaskId)
    ensures Sum(Budgets(tasks - {t})) <= Sum(Budgets(tasks)) && Sum(Pendings(tasks - {t})) <= Sum(Pendings(tasks))
  {
    SumOfPart(Budgets(tasks - {t}), Budgets(tasks));
    SumOfPart(Pendings(tasks - {t}), Pendings(tasks));
  }

  lemma {:induction false} StepKeepsCounts(s: Sys, e: Event)
    requires CallsCounted(s)
    ensures CallsCounted(Do(s, e))
  {
    match e
    case EnqueueRaises(error) =>
    case Dispatch(t) => if t !in s.tasks { SetTask(s.tasks, t, Ready(0)); }
    case Crash(t) => DropTask(s.tasks, t);
    case Count(t, now) =>
      DropTask(s.tasks, t);
      if t in s.tasks { SetTask(s.tasks, t, Counted(s.tasks[t].retries)); }
    case StartCall(t) => if t in s.tasks { SetTask(s.tasks, t, Calling(s.tasks[t].retries)); }
    case EndCall(t, ok) => if t in s.tasks { SetTask(s.tasks, t, Returned(s.tasks[t].retries, ok)); }
    case _ => RetryKeepsCounts(s, e);
  }

  lemma {:induction false} RetryKeepsCounts(s: Sys, e: Event)
    requires CallsCounted(s) && (e.CountRaises? || e.MarkIt? || e.MarkRaises?)
    ensures CallsCounted(Do(s, e))
  {
    if e.t in s.tasks { RetryShrinks(s.tasks, e.t); }
  }

  /** Neither giving a task up nor trying it again adds to what is left. */
  lemma {:induction false} RetryShrinks(tasks: map<TaskId, Task>, t: TaskId)
    requires t in tasks
    ensures Sum(Budgets(tasks - {t})) <= Sum(Budgets(tasks)) && Sum(Pendings(tasks - {t})) <= Sum(Pendings(tasks))
    ensures var r := tasks[t].retries;
            r < MAX_RETRIES ==>
              && Sum(Budgets(tasks[t := Ready(r + 1)])) <= Sum(Budgets(tasks))
              && Sum(Pendings(tasks[t := Ready(r + 1)])) <= Sum(Pendings(tasks))
  {
    DropTask(tasks, t);
    if tasks[t].retries < MAX_RETRIES { SetTask(tasks, t, Ready(tasks[t].retries + 1)); }
  }

  // ---- calls after the job is sent -------------------------------------------------------------------

  /** Tasks that have not begun, or are only left to mark success. */
  ghost predicate Settled(s: Sys) {
    forall t :: t in s.tasks ==> s.tasks[t].Ready? || (s.tasks[t].Returned? && s.tasks[t].ok)
  }

  predicate IsSent(s: Sys) { s.job.Some? && s.job.value.status.Sent? }

  /** Runs in which the API process does not mark the job failed. */
  predicate NoEnqueueError(trace: seq<Event>) { forall i :: 0 <= i < |trace| ==> !trace[i].EnqueueRaises? }

  lemma {:induction false} SettledStaysQuiet(s: Sys, trace: seq<Event>)
    requires IsSent(s) && Settled(s) && NoEnqueueError(trace)
    ensures var end := Exec(s, trace); IsSent(end) && Settled(end) && end.started == s.started
  {
    if trace != [] {
      SettledStaysQuiet(s, trace[..|trace| - 1]);
      SettledStep(Exec(s, trace[..|trace| - 1]), trace[|trace| - 1]);
    }
  }

  lemma {:induction false} SettledStep(s: Sys, e: Event)
    requires IsSent(s) && Settled(s) && !e.EnqueueRaises?
    ensures IsSent(Do(s, e)) && Settled(Do(s, e)) && Do(s, e).started == s.started
  {
  }

  /** A task that is past its count can still call, or fail and reopen the job. */
  lemma {:induction false} UnsettledCanCall(s: Sys, t: TaskId) returns (trace: seq<Event>)
    requires IsSent(s) && t in s.tasks && !s.tasks[t].Ready? && !(s.tasks[t].Returned? && s.tasks[t].ok)
    ensures NoEnqueueError(trace) && Exec(s, trace).started == s.started + 1
  {
    if s.tasks[t].Counted? {
      ExecOne(s, StartCall(t));
      trace := [StartCall(t)];
    } else {
      var lead: seq<Event> := if s.tasks[t].Calling? then [EndCall(t, false)] else [];
      var s1 := if s.tasks[t].Calling? then Do(s, EndCall(t, false)) else s;
      assert Exec(s, lead) == s1 by { if s.tasks[t].Calling? { ExecOne(s, EndCall(t, false)); } }
      var s2 := Do(s1, MarkIt(t, 0, ""));
      FailedReopens(s1, t);
      CountAgain(s2, t);
      ExecAppend(s, lead, [MarkIt(t, 0, "")]);
      ExecOne(s1, MarkIt(t, 0, ""));
      ExecAppend(s, lead + [MarkIt(t, 0, "")], [Dispatch(t), Count(t, 0), StartCall(t)]);
      trace := lead + [MarkIt(t, 0, "")] + [Dispatch(t), Count(t, 0), StartCall(t)];
    }
  }

  lemma FailedReopens(s: Sys, t: TaskId)
    requires s.job.Some? && t in s.tasks && s.tasks[t].Returned? && !s.tasks[t].ok
    ensures var next := Do(s, MarkIt(t, 0, ""));
            && next.job.Some? && next.job.value.status.Failed? && next.started == s.started
            && (t in next.tasks ==> next.tasks[t].Ready?)
  {
  }

  lemma {:induction false} CountAgain(s: Sys, t: TaskId)
    requires s.job.Some? && s.job.value.status.Failed? && (t in s.tasks ==> s.tasks[t].Ready?)
    ensures Exec(s, [Dispatch(t), Count(t, 0), StartCall(t)]).started == s.started + 1
  {
    var events := [Dispatch(t), Count(t, 0), StartCall(t)];
    assert events[..2] == [Dispatch(t)] + [Count(t, 0)];
    ExecAppend(s, [Dispatch(t)], [Count(t, 0)]);
    ExecOne(s, Dispatch(t));
    ExecOne(Do(s, Dispatch(t)), Count(t, 0));
  }

  lemma ExecOne(s: Sys, e: Event)
    ensures Exec(s, [e]) == Do(s, e)
  {
    assert [e][..0] == [];
  }

  lemma {:induction false} ExecAppend(s: Sys, a: seq<Event>, b: seq<Event>)
    ensures Exec(s, a + b) == Exec(Exec(s, a), b)
  {
    if b == [] {
      assert a + b == a;
    } else {
      assert (a + b)[..|a + b| - 1] == a + b[..|b| - 1];
      ExecAppend(s, a, b[..|b| - 1]);
    }
  }

  /**
    Once a job is sent, no continuation without an enqueue error calls the provider again if and only if every
    task then has either not begun or is about to mark its own success.
  */
  lemma {:induction false} QuietAfterSentIff(s: Sys)
    requires IsSent(s)
    ensures (forall trace :: NoEnqueueError(trace) ==> Exec(s, trace).started == s.started) <==> Settled(s)
  {
    if Settled(s) {
      forall trace | NoEnqueueError(trace) ensures Exec(s, trace).started == s.started { SettledStaysQuiet(s, trace); }
    } else {
      var t :| t in s.tasks && !s.tasks[t].Ready? && !(s.tasks[t].Returned? && s.tasks[t].ok);
      var trace := UnsettledCanCall(s, t);
    }
  }

  /**
    Once a job is sent, it stays sent in every continuation without an enqueue error if and only if every task
    then has either not begun or is about to mark its own success.
  */
  lemma {:induction false} StaysSentIff(s: Sys)
    requires IsSent(s)
    ensures (forall trace :: NoEnqueueError(trace) ==> IsSent(Exec(s, trace))) <==> Settled(s)
  {
    if Settled(s) {
      forall trace | NoEnqueueError(trace) ensures IsSent(Exec(s, trace)) { SettledStaysQuiet(s, trace); }
    } else {
      var t :| t in s.tasks && !s.tasks[t].Ready? && !(s.tasks[t].Returned? && s.tasks[t].ok);
      var trace := UnsettledCanReopen(s, t);
    }
  }

  /** A task that is past its count can fail and mark the job so. */
  lemma {:induction false} UnsettledCanReopen(s: Sys, t: TaskId) returns (trace: seq<Event>)
    requires IsSent(s) && t in s.tasks && !s.tasks[t].Ready? && !(s.tasks[t].Returned? && s.tasks[t].ok)
    ensures NoEnqueueError(trace) && !IsSent(Exec(s, trace))
    decreases if s.tasks[t].Counted? then 2 else if s.tasks[t].Calling? then 1 else 0
  {
    if s.tasks[t].Returned? {
      FailedReopens(s, t);
      ExecOne(s, MarkIt(t, 0, ""));
      trace := [MarkIt(t, 0, "")];
    } else {
      var e := if s.tasks[t].Counted? then StartCall(t) else EndCall(t, false);
      var rest := UnsettledCanReopen(Do(s, e), t);
      ExecOne(s, e);
      ExecAppend(s, [e], rest);
      trace := [e] + rest;
    }
  }

  // ---- calls when enqueue errors may come too --------------------------------------------------------

  /** Runs to which no further task is handed out. */
  predicate NoDispatch(trace: seq<Event>) { forall i :: 0 <= i < |trace| ==> !trace[i].Dispatch? }

  /** No task may begin another call. */
  ghost predicate Spent(s: Sys) { forall t :: t in s.tasks ==> Budget(s.tasks[t]) == 0 }

  /**
    Under any events but a new dispatch, enqueue errors included, no continuation calls the provider if and only
    if no task has an attempt left: an enqueue error reopens even a sent job for every task that has one.
  */
  lemma {:induction false} QuietWithoutDispatchIff(s: Sys)
    requires s.job.Some?
    ensures (forall trace :: NoDispatch(trace) ==> Exec(s, trace).started == s.started) <==> Spent(s)
  {
    if Spent(s) {
      forall trace | NoDispatch(trace) ensures Exec(s, trace).started == s.started { SpentStaysQuiet(s, trace); }
    } else {
      var t :| t in s.tasks && Budget(s.tasks[t]) != 0;
      var trace := UnspentCanCall(s, t);
    }
  }

  lemma {:induction false} SpentStaysQuiet(s: Sys, trace: seq<Event>)
    requires Spent(s) && NoDispatch(trace)
    ensures Spent(Exec(s, trace)) && Exec(s, trace).started == s.started
  {
    if trace != [] {
      SpentStaysQuiet(s, trace[..|trace| - 1]);
      SpentStep(Exec(s, trace[..|trace| - 1]), trace[|trace| - 1]);
    }
  }

  lemma SpentStep(s: Sys, e: Event)
    requires Spent(s) && !e.Dispatch?
    ensures Spent(Do(s, e)) && Do(s, e).started == s.started
  {
  }

  /** A task with an attempt left calls once the API process has marked the job failed. */
  lemma {:induction false} UnspentCanCall(s: Sys, t: TaskId) returns (trace: seq<Event>)
    requires s.job.Some? && t in s.tasks && Budget(s.tasks[t]) != 0
    ensures NoDispatch(trace) && Exec(s, trace).started == s.started + 1
    decreases s.tasks[t].Calling?
  {
    match s.tasks[t]
    case Counted(_) =>
      ExecOne(s, StartCall(t));
      trace := [StartCall(t)];
    case Ready(_) => trace := ReadyCanCall(s, t);
    case Returned(_, _) =>
      var next := Do(s, MarkRaises(t));
      var rest := ReadyCanCall(next, t);
      ExecOne(s, MarkRaises(t));
      ExecAppend(s, [MarkRaises(t)], rest);
      trace := [MarkRaises(t)] + rest;
    case Calling(_) =>
      var next := Do(s, EndCall(t, false));
      var rest := UnspentCanCall(next, t);
      ExecOne(s, EndCall(t, false));
      ExecAppend(s, [EndCall(t, false)], rest);
      trace := [EndCall(t, false)] + rest;
  }

  lemma {:induction false} ReadyCanCall(s: Sys, t: TaskId) returns (trace: seq<Event>)
    requires s.job.Some? && t in s.tasks && s.tasks[t].Ready?
    ensures NoDispatch(trace) && Exec(s, trace).started == s.started + 1
  {
    ThreeSteps(s, EnqueueRaises(""), Count(t, 0), StartCall(t));
    trace := [EnqueueRaises("")] + [Count(t, 0)] + [StartCall(t)];
  }

  // ---- one task --------------------------------------------------------------------------------------

  /** One task at most, and none once the job is sent. */
  ghost predicate LastTask(s: Sys) { |s.tasks| <= 1 && (IsSent(s) ==> s.tasks == map[]) }

  /**
    With one dispatched task nothing is called once the job is sent, under any events: crashes, failing marks,
    and an enqueue error that comes before or after the job is sent.
  */
  lemma {:induction false} OneTaskIsQuietUnderAnyError(s: Sys, trace: seq<Event>, more: seq<Event>)
    requires LastTask(s) && NoDispatch(trace) && NoDispatch(more) && IsSent(Exec(s, trace))
    ensures Exec(s, trace + more).started == Exec(s, trace).started
  {
    LastTaskStays(s, trace);
    ExecAppend(s, trace, more);
    SpentStaysQuiet(Exec(s, trace), more);
  }

  lemma {:induction false} LastTaskStays(s: Sys, trace: seq<Event>)
    requires LastTask(s) && NoDispatch(trace)
    ensures LastTask(Exec(s, trace))
  {
    if trace != [] {
      LastTaskStays(s, trace[..|trace| - 1]);
      LastTaskStep(Exec(s, trace[..|trace| - 1]), trace[|trace| - 1]);
    }
  }

  lemma {:induction false} LastTaskStep(s: Sys, e: Event)
    requires LastTask(s) && !e.Dispatch?
    ensures LastTask(Do(s, e))
  {
    if e.EnqueueRaises? { return; }
    if e.t in s.tasks {
      OnlyOne(s.tasks, e.t);
      assert s.tasks == map[e.t := s.tasks[e.t]];
    } else {
      assert s.tasks - {e.t} == s.tasks;
    }
  }

  /** One task and no other: when the job is sent nothing is left that could call. */
  ghost predicate Solo(s: Sys) { |s.tasks| <= 1 && (IsSent(s) ==> Settled(s)) }

  /** Without an enqueue error the job even stays sent, whatever is dispatched later. */
  lemma {:induction false} OneTaskIsQuietAfterSent(s: Sys, trace: seq<Event>, more: seq<Event>)
    requires Solo(s) && IsSent(Exec(s, trace)) && NoEnqueueError(trace) && NoEnqueueError(more)
    requires forall i :: 0 <= i < |trace| ==> !trace[i].Dispatch?
    ensures Exec(s, trace + more).started == Exec(s, trace).started && IsSent(Exec(s, trace + more))
  {
    SoloStaysSolo(s, trace);
    ExecAppend(s, trace, more);
    SettledStaysQuiet(Exec(s, trace), more);
  }

  lemma {:induction false} SoloStaysSolo(s: Sys, trace: seq<Event>)
    requires Solo(s) && NoEnqueueError(trace) && (forall i :: 0 <= i < |trace| ==> !trace[i].Dispatch?)
    ensures Solo(Exec(s, trace))
  {
    if trace != [] {
      SoloStaysSolo(s, trace[..|trace| - 1]);
      SoloStep(Exec(s, trace[..|trace| - 1]), trace[|trace| - 1]);
    }
  }

  lemma {:induction false} SoloStep(s: Sys, e: Event)
    requires Solo(s) && !e.Dispatch? && !e.EnqueueRaises?
    ensures Solo(Do(s, e))
  {
    if e.t in s.tasks {
      OnlyOne(s.tasks, e.t);
      assert s.tasks == map[e.t := s.tasks[e.t]];
    } else {
      assert s.tasks - {e.t} == s.tasks;
    }
  }

  lemma OnlyOne(tasks: map<TaskId, Task>, t: TaskId)
    requires |tasks| <= 1 && t in tasks
    ensures tasks.Keys == {t}
  {
    assert |tasks.Keys - {t}| == 0;
  }

  /** A job as create_email_job leaves it, with no task yet. */
  function NewJob(): Job { Job(Queued, 0, None, None, None) }

  function JustQueued(): Sys { Sys(Some(NewJob()), map[], 0, 0, 0) }

  /** Two tasks are dispatched for it and both count their attempt. */
  function TwoCount(): seq<Event> { [Dispatch(1)] + [Dispatch(2)] + [Count(1, 0)] + [Count(2, 0)] }

  function CountedTwice(): Job { CountedJob(CountedJob(NewJob(), 0), 0) }

  /**
    The first task then delivers and marks the job sent; the second calls again, fails, and the job goes back
    to failed.
  */
  lemma {:induction false} TwoTasksCanReopen()
    ensures var first := TwoCount() + ([StartCall(1)] + [EndCall(1, true)] + [MarkIt(1, 0, "")]);
            var second := [StartCall(2)] + [EndCall(2, false)] + [MarkIt(2, 0, "")];
            && CallsCounted(JustQueued()) && SentMeansDelivered(JustQueued())
            && IsSent(Exec(JustQueued(), first)) && !IsSent(Exec(JustQueued(), first + second))
            && Exec(JustQueued(), first + second).started == Exec(JustQueued(), first).started + 1
  {
    var first := TwoCount() + ([StartCall(1)] + [EndCall(1, true)] + [MarkIt(1, 0, "")]);
    var second := [StartCall(2)] + [EndCall(2, false)] + [MarkIt(2, 0, "")];
    assert Budgets(JustQueued().tasks) == map[] && Pendings(JustQueued().tasks) == map[];
    BothCount();
    ExecAppend(JustQueued(), TwoCount(), [StartCall(1)] + [EndCall(1, true)] + [MarkIt(1, 0, "")]);
    FirstMarks(CountedTwice());
    SecondFails(CountedTwice());
    ExecAppend(JustQueued(), first, second);
  }

  function TwoCounted(job: Job): Sys { Sys(Some(job), map[1 := Counted(0), 2 := Counted(0)], 2, 0, 0) }

  function OneSent(job: Job): Sys { Sys(Some(SentJob(job, 0)), map[2 := Counted(0)], 2, 1, 1) }

  lemma {:induction false} BothCount()
    ensures Exec(JustQueued(), TwoCount()) == TwoCounted(CountedTwice())
  {
    var s := JustQueued();
    ThreeSteps(s, Dispatch(1), Dispatch(2), Count(1, 0));
    ExecAppend(s, [Dispatch(1)] + [Dispatch(2)] + [Count(1, 0)], [Count(2, 0)]);
    var s2 := Sys(Some(NewJob()), map[1 := Ready(0), 2 := Ready(0)], 2, 0, 0);
    assert Do(Do(s, Dispatch(1)), Dispatch(2)) == s2;
    var s3 := Sys(Some(CountedJob(NewJob(), 0)), map[1 := Counted(0), 2 := Ready(0)], 2, 0, 0);
    assert Do(s2, Count(1, 0)) == s3;
    ExecOne(s3, Count(2, 0));
  }

  lemma {:induction false} FirstMarks(job: Job)
    ensures Exec(TwoCounted(job), [StartCall(1)] + [EndCall(1, true)] + [MarkIt(1, 0, "")]) == OneSent(job)
  {
    var s := TwoCounted(job);
    ThreeSteps(s, StartCall(1), EndCall(1, true), MarkIt(1, 0, ""));
    assert Do(Do(s, StartCall(1)), EndCall(1, true))
        == Sys(Some(job), map[1 := Returned(0, true), 2 := Counted(0)], 2, 1, 1);
    assert map[1 := Returned(0, true), 2 := Counted(0)] - {1} == map[2 := Counted(0)];
  }

  lemma {:induction false} SecondFails(job: Job)
    ensures var end := Exec(OneSent(job), [StartCall(2)] + [EndCall(2, false)] + [MarkIt(2, 0, "")]);
            !IsSent(end) && end.started == 2
  {
    ThreeSteps(OneSent(job), StartCall(2), EndCall(2, false), MarkIt(2, 0, ""));
  }

  lemma ThreeSteps(s: Sys, a: Event, b: Event, c: Event)
    ensures Exec(s, [a] + [b] + [c]) == Do(Do(Do(s, a), b), c)
  {
    ExecAppend(s, [a], [b]);
    ExecOne(s, a);
    ExecOne(Do(s, a), b);
    ExecAppend(s, [a] + [b], [c]);
    ExecOne(Do(Do(s, a), b), c);
  }

  // ---- the task alone is one of the step-level runs --------------------------------------------------

  /** The steps of one attempt. */
  function StepsOf(t: TaskId, job: Option<Job>, try: Try): seq<Event> {
    if !try.counts then [CountRaises(t)]
    else if job.None? || job.value.status.Sent? then [Count(t, try.countedAt)]
    else [Count(t, try.countedAt), StartCall(t), EndCall(t, try.delivers)]
         + [if try.marks then MarkIt(t, try.doneAt, try.error) else MarkRaises(t)]
  }

  /** An attempt whose steps run without interruption does what Attempt says. */
  lemma {:induction false} AttemptIsSteps(s: Sys, t: TaskId, try: Try)
    requires t in s.tasks && s.tasks[t].Ready?
    ensures var a, end := Attempt(s.job, try), Exec(s, StepsOf(t, s.job, try)); var r := s.tasks[t].retries;
            && end.job == a.job && end.started == s.started + a.calls && end.succeeded == s.succeeded + a.delivered
            && end.tasks == (if a.result.Raised? && r < MAX_RETRIES then s.tasks[t := Ready(r + 1)] else s.tasks - {t})
  {
    if !try.counts || s.job.None? || s.job.value.status.Sent? {
      ExecOne(s, if try.counts then Count(t, try.countedAt) else CountRaises(t));
    } else {
      var head := [Count(t, try.countedAt)] + [StartCall(t)] + [EndCall(t, try.delivers)];
      var last := if try.marks then MarkIt(t, try.doneAt, try.error) else MarkRaises(t);
      UpToMark(s, t, try);
      ExecAppend(s, head, [last]);
      ExecOne(Called(s, t, try), last);
      assert StepsOf(t, s.job, try) == head + [last];
      LastStep(s, t, try);
    }
  }

  /** An attempt just before its last transaction. */
  function Called(s: Sys, t: TaskId, try: Try): Sys
    requires s.job.Some? && t in s.tasks
  {
    Sys(Some(CountedJob(s.job.value, try.countedAt)), s.tasks[t := Returned(s.tasks[t].retries, try.delivers)],
        s.dispatched, s.started + 1, s.succeeded + if try.delivers then 1 else 0)
  }

  lemma {:induction false} UpToMark(s: Sys, t: TaskId, try: Try)
    requires s.job.Some? && !s.job.value.status.Sent? && t in s.tasks && s.tasks[t].Ready?
    ensures Exec(s, [Count(t, try.countedAt)] + [StartCall(t)] + [EndCall(t, try.delivers)]) == Called(s, t, try)
  {
    ThreeSteps(s, Count(t, try.countedAt), StartCall(t), EndCall(t, try.delivers));
    var r := s.tasks[t].retries;
    assert s.tasks[t := Counted(r)][t := Calling(r)][t := Returned(r, try.delivers)]
        == s.tasks[t := Returned(r, try.delivers)];
  }

  lemma {:induction false} LastStep(s: Sys, t: TaskId, try: Try)
    requires try.counts && s.job.Some? && !s.job.value.status.Sent? && t in s.tasks && s.tasks[t].Ready?
    ensures var a := Attempt(s.job, try); var r := s.tasks[t].retries;
            var end := Do(Called(s, t, try), if try.marks then MarkIt(t, try.doneAt, try.error) else MarkRaises(t));
            && end.job == a.job && end.started == s.started + a.calls && end.succeeded == s.succeeded + a.delivered
            && end.tasks == (if a.result.Raised? && r < MAX_RETRIES then s.tasks[t := Ready(r + 1)] else s.tasks - {t})
  {
    var r := s.tasks[t].retries;
    assert s.tasks[t := Returned(r, try.delivers)] - {t} == s.tasks - {t};
  }
}
