/** What each transaction of the automation tables answers and writes, row by row, and that it writes nothing else. The
    clauses name statuses and rows only, none of the functions that compute them. */
module AutomationLaws {
  import opened Prelude
  import opened AutomationModel
  import opened WithdrawalModel

  predicate Live(attempt: Attempt) {
    attempt.status == AttemptStatus.Submitting || attempt.status == AttemptStatus.Running
  }

  predicate Executing(task: Task) {
    task.status == TaskStatus.Submitting || task.status == TaskStatus.Running
  }

  /** A task that waits, or that waits for someone: what a withdrawal may cancel or restart. */
  predicate Idle(task: Task) {
    task.status == TaskStatus.Waiting || task.status == TaskStatus.Blocked || task.status == TaskStatus.Failed
  }

  predicate SameName(a: AttemptStatus, t: TaskStatus) {
    match t
    case Success => a == AttemptStatus.Success
    case Failed => a == AttemptStatus.Failed
    case Cancelled => a == AttemptStatus.Cancelled
    case Submitting => a == AttemptStatus.Submitting
    case Running => a == AttemptStatus.Running
    case Waiting => false
    case Blocked => false
  }

  /** The attempt and its task are both stored. */
  predicate Placed(s: Store, a: nat) {
    a in s.attempts && s.attempts[a].task in s.tasks
  }

  predicate IsCurrent(s: Store, a: nat) {
    Placed(s, a) && s.tasks[s.attempts[a].task].current == a
  }

  /** At most the row of task `id` differs. */
  ghost predicate OnlyRow(s: Store, s': Store, id: nat) {
    && s' == s.(tasks := s'.tasks) && s'.tasks.Keys == s.tasks.Keys
    && forall t | t in s.tasks && t != id :: s'.tasks[t] == s.tasks[t]
  }

  /** At most the status of task `id` differs. */
  ghost predicate OnlyStatus(s: Store, s': Store, id: nat) {
    OnlyRow(s, s', id) && (id in s.tasks ==> s'.tasks[id] == s.tasks[id].(status := s'.tasks[id].status))
  }

  /** At most attempt `a`, and the status of its task, differ. */
  ghost predicate OnlyAround(s: Store, s': Store, a: nat)
    requires Placed(s, a)
  {
    && s' == s.(tasks := s'.tasks, attempts := s'.attempts) && s'.attempts.Keys == s.attempts.Keys
    && (forall b | b in s.attempts && b != a :: s'.attempts[b] == s.attempts[b])
    && OnlyStatus(s, s.(tasks := s'.tasks), s.attempts[a].task)
  }

  // ---------------------------------------------------------------- attempts

  /** The kind of the task may be started under the status of its ticket. */
  predicate MayStart(s: Store, id: nat)
    requires id in s.tasks && s.tasks[id].instance in s.tickets
  {
    var ticket := s.tickets[s.tasks[id].instance];
    (s.tasks[id].kind == Process && ticket == Processing) || (s.tasks[id].kind == Compensation && ticket == Withdrawing)
  }

  ghost predicate HighestNumber(s: Store, task: nat, n: nat) {
    && (forall a | a in s.attempts && s.attempts[a].task == task :: s.attempts[a].number <= n)
    && (n == 0 || exists a :: a in s.attempts && s.attempts[a].task == task && s.attempts[a].number == n)
  }

  /** A new attempt row for the task, numbered on from its highest, which is now its current one. */
  ghost predicate AddsAttempt(s: Store, s': Store, id: nat)
    requires id in s.tasks
  {
    var a := s.nextAttempt;
    && s'.tickets == s.tickets && s'.nextAttempt == a + 1
    && s'.attempts.Keys == s.attempts.Keys + {a} && s'.tasks.Keys == s.tasks.Keys
    && (forall b | b in s.attempts && b != a :: s'.attempts[b] == s.attempts[b])
    && (forall t | t in s.tasks && t != id :: s'.tasks[t] == s.tasks[t])
    && s'.attempts[a].task == id && s'.attempts[a].number > 0 && HighestNumber(s, id, s'.attempts[a].number - 1)
    && s'.attempts[a].request == RequestId(id, s'.attempts[a].number)
    && s'.attempts[a].execution == None && s'.attempts[a].status == AttemptStatus.Submitting
    && s'.tasks[id] == s.tasks[id].(status := TaskStatus.Submitting, current := a)
  }

  ghost predicate Begins(s: Store, id: nat, s': Store, r: Result<nat, DaoError>) {
    && (r.Err? ==> s' == s)
    && (id in s.tasks && s.tasks[id].instance in s.tickets ==>
          if s.tasks[id].current > 0 && Executing(s.tasks[id]) then
            s' == s && r == if s.tasks[id].current in s.attempts then Ok(s.tasks[id].current) else Err(NotFound)
          else if s.tasks[id].status == TaskStatus.Waiting && MayStart(s, id) then
            r == Ok(s.nextAttempt) && AddsAttempt(s, s', id)
          else r == Err(NotRunnable))
    && (!(id in s.tasks && s.tasks[id].instance in s.tickets) ==> r == Err(NotFound))
  }

  lemma BeginLaw(s: Store, id: nat)
    ensures Begins(s, id, Begin(s, id).store, Begin(s, id).result)
  {
    assert HighestNumber(s, id, LastNumber(s.attempts, id));
  }

  /** The execution is recorded on the attempt, ended or not; only a live one moves to running, and its task with it if it
      is being submitted. */
  ghost predicate Binds(s: Store, a: nat, execution: int, s': Store, r: Result<(), DaoError>) {
    && (r.Err? ==> s' == s)
    && (r == Err(NotFound) <==> !Placed(s, a))
    && (r == Err(BoundElsewhere) <==>
          Placed(s, a) && s.attempts[a].execution != None && s.attempts[a].execution != Some(execution))
    && (r.Err? ==> r == Err(NotFound) || r == Err(BoundElsewhere))
    && (r.Ok? ==> OnlyAround(s, s', a) && s'.attempts[a].execution == Some(execution))
    && (r.Ok? && !Live(s.attempts[a]) ==>
          s'.attempts[a] == s.attempts[a].(execution := Some(execution)) && s'.tasks == s.tasks)
    && (r.Ok? && Live(s.attempts[a]) ==>
          && s'.attempts[a] == s.attempts[a].(execution := Some(execution), status := AttemptStatus.Running)
          && var t := s.attempts[a].task;
             s'.tasks[t].status == if IsCurrent(s, a) && s.tasks[t].status == TaskStatus.Submitting then TaskStatus.Running
                                   else s.tasks[t].status)
  }

  lemma BindLaw(s: Store, a: nat, execution: int)
    ensures Binds(s, a, execution, BindExecution(s, a, execution).store, BindExecution(s, a, execution).result)
  {
  }

  /** A live attempt fails, and its task is blocked if it is being submitted with that attempt. */
  ghost predicate Rejects(s: Store, a: nat, s': Store, r: Result<(), DaoError>) {
    && (r == if Placed(s, a) then Ok(()) else Err(NotFound))
    && (!Placed(s, a) || !Live(s.attempts[a]) ==> s' == s)
    && (Placed(s, a) && Live(s.attempts[a]) ==>
          && OnlyAround(s, s', a) && s'.attempts[a] == s.attempts[a].(status := AttemptStatus.Failed)
          && var t := s.attempts[a].task;
             s'.tasks[t].status == if IsCurrent(s, a) && s.tasks[t].status == TaskStatus.Submitting then TaskStatus.Blocked
                                   else s.tasks[t].status)
  }

  lemma RejectLaw(s: Store, a: nat)
    ensures Rejects(s, a, RejectSubmission(s, a).store, RejectSubmission(s, a).result)
  {
  }

  /** Every task but a succeeded one can be terminated, more than once too; its current attempt ends with it if it is live. */
  ghost predicate Terminates(s: Store, id: nat, s': Store, r: Result<nat, DaoError>) {
    && (r.Err? ==> s' == s)
    && (id !in s.tasks ==> r == Err(NotFound))
    && (id in s.tasks ==> (r == Err(CannotTerminate) <==> s.tasks[id].status == TaskStatus.Success))
    && (id in s.tasks && s.tasks[id].status != TaskStatus.Success ==>
          var a := s.tasks[id].current;
          if a > 0 && a !in s.attempts then r == Err(NotFound)
          else
            && r == Ok(a) && s'.attempts.Keys == s.attempts.Keys
            && OnlyStatus(s, s'.(attempts := s.attempts), id) && s'.tasks[id].status == TaskStatus.Cancelled
            && (forall b | b in s.attempts :: s'.attempts[b] ==
                  if a > 0 && b == a && Live(s.attempts[b]) then s.attempts[b].(status := AttemptStatus.Cancelled) else s.attempts[b]))
  }

  lemma TerminateLaw(s: Store, id: nat)
    ensures Terminates(s, id, TerminateTask(s, id).store, TerminateTask(s, id).result)
  {
  }

  /** The first attempt that carries the request, and its task, are stored. */
  ghost predicate Answers(s: Store, a: nat, request: string) {
    && Placed(s, a) && s.attempts[a].request == request
    && forall b | b in s.attempts && s.attempts[b].request == request :: a <= b
  }

  /** A live attempt takes over the reported status, its task, if it is executing that attempt, the status of the same name. */
  ghost predicate Stored(s: Store, s': Store, a: nat, reported: AttemptStatus)
    requires Placed(s, a)
  {
    var t := s.attempts[a].task;
    && OnlyAround(s, s', a)
    && (!Live(s.attempts[a]) ==> s' == s)
    && (Live(s.attempts[a]) ==> s'.attempts[a] == s.attempts[a].(status :=
          if reported == AttemptStatus.Submitting || reported == AttemptStatus.Running then AttemptStatus.Failed else reported))
    && (if Live(s.attempts[a]) && IsCurrent(s, a) && Executing(s.tasks[t])
        then SameName(s'.attempts[a].status, s'.tasks[t].status) else s'.tasks[t] == s.tasks[t])
  }

  ghost predicate Completes(s: Store, request: string, reported: AttemptStatus, s': Store, r: Result<nat, DaoError>) {
    && (r.Err? ==> s' == s && r.error == NotFound && forall a :: !Answers(s, a, request))
    && (r.Ok? ==> Answers(s, r.value, request) && Stored(s, s', r.value, reported))
  }

  lemma StoreLaw(s: Store, a: nat, reported: AttemptStatus)
    requires Placed(s, a)
    ensures Stored(s, CompleteById(s, a, reported).store, a, reported) && CompleteById(s, a, reported).result == Ok(a)
  {
  }

  lemma CompleteLaw(s: Store, request: string, reported: AttemptStatus)
    ensures Completes(s, request, reported, Complete(s, request, reported).store, Complete(s, request, reported).result)
  {
    var found := WithRequest(s, request);
    assert forall a | a in s.attempts && s.attempts[a].request == request :: a in found;
    forall a | Answers(s, a, request) ensures a == MinOf(found) {}
    if found != {} && Placed(s, MinOf(found)) { StoreLaw(s, MinOf(found), reported); }
  }

  // ---------------------------------------------------------------- tasks

  /** The task of a node that has none yet: waiting with its schedule, or blocked without one. */
  ghost predicate Creates(s: Store, id: nat, instance: int, node: string, compensation: string, scheduledAt: int, blocked: bool,
                          s': Store)
  {
    if id in s.tasks || exists t :: t in s.tasks && s.tasks[t].instance == instance && s.tasks[t].node == node then s' == s
    else
      && s' == s.(tasks := s'.tasks) && s'.tasks.Keys == s.tasks.Keys + {id}
      && (forall t | t in s.tasks :: s'.tasks[t] == s.tasks[t])
      && s'.tasks[id].instance == instance && s'.tasks[id].node == node && s'.tasks[id].compensation == compensation
      && s'.tasks[id].kind == Process && s'.tasks[id].current == 0 && s'.tasks[id].advancedAt == 0
      && (blocked ==> s'.tasks[id].status == TaskStatus.Blocked)
      && (blocked ==> s'.tasks[id].scheduledAt == 0 && s'.tasks[id].originalScheduledAt == 0)
      && (!blocked ==> s'.tasks[id].status == TaskStatus.Waiting)
      && (!blocked ==> s'.tasks[id].scheduledAt == scheduledAt && s'.tasks[id].originalScheduledAt == scheduledAt)
  }

  lemma CreateLaw(s: Store, id: nat, instance: int, node: string, compensation: string, scheduledAt: int, blocked: bool)
    ensures Creates(s, id, instance, node, compensation, scheduledAt, blocked,
                    CreateTask(s, id, instance, node, compensation, scheduledAt, blocked))
  {
  }

  /** Waiting and failed tasks are blocked, no others. */
  ghost predicate Blocks(s: Store, id: nat, s': Store) {
    && OnlyStatus(s, s', id)
    && (id in s.tasks ==>
          if s.tasks[id].status == TaskStatus.Waiting || s.tasks[id].status == TaskStatus.Failed
          then s'.tasks[id].status == TaskStatus.Blocked else s' == s)
  }

  lemma BlockLaw(s: Store, id: nat)
    ensures Blocks(s, id, Block(s, id))
  {
  }

  /** Failed, blocked and cancelled tasks are set waiting; all others are refused. */
  ghost predicate Resets(s: Store, id: nat, s': Store, r: Result<(), DaoError>) {
    var resets := id in s.tasks
      && (s.tasks[id].status == TaskStatus.Failed || s.tasks[id].status == TaskStatus.Blocked || s.tasks[id].status == TaskStatus.Cancelled);
    && r == (if resets then Ok(()) else Err(CannotRetry))
    && OnlyStatus(s, s', id)
    && (if resets then s'.tasks[id].status == TaskStatus.Waiting else s' == s)
  }

  lemma RetryLaw(s: Store, id: nat)
    ensures Resets(s, id, PrepareRetry(s, id).store, PrepareRetry(s, id).result)
  {
  }

  /** The advance is recorded once. */
  ghost predicate Advances(s: Store, id: nat, now: int, s': Store) {
    && OnlyRow(s, s', id)
    && (id in s.tasks ==> s'.tasks[id] == s.tasks[id].(advancedAt := s'.tasks[id].advancedAt))
    && (id in s.tasks ==> s'.tasks[id].advancedAt == if s.tasks[id].advancedAt == 0 then now else s.tasks[id].advancedAt)
  }

  lemma AdvanceLaw(s: Store, id: nat, now: int)
    ensures Advances(s, id, now, MarkAdvanced(s, id, now))
  {
  }

  // ---------------------------------------------------------------- withdrawal

  /** An executing task of the instance whose node no succeeded task of it names as its compensation. */
  ghost predicate InTheWay(s: Store, instance: int, t: nat) {
    && t in s.tasks && s.tasks[t].instance == instance && Executing(s.tasks[t])
    && forall u | u in s.tasks && s.tasks[u].instance == instance && s.tasks[u].status == TaskStatus.Success ::
         s.tasks[u].compensation != s.tasks[t].node
  }

  /** Only the ticket and the rows of one instance may differ. */
  ghost predicate OnlyInstance(s: Store, s': Store, instance: int) {
    && s'.attempts == s.attempts && s'.nextAttempt == s.nextAttempt
    && s'.tickets.Keys == s.tickets.Keys && s'.tasks.Keys == s.tasks.Keys
    && (forall i | i in s.tickets && i != instance :: s'.tickets[i] == s.tickets[i])
    && (forall t | t in s.tasks && s.tasks[t].instance != instance :: s'.tasks[t] == s.tasks[t])
  }

  /** Why an instance cannot be withdrawn now. */
  ghost predicate Forbids(s: Store, instance: int, e: DaoError) {
    match e
    case NotFound => instance !in s.tickets
    case NotProcessing => instance in s.tickets && s.tickets[instance] != Processing
    case AutomationRunning => HasStatus(s, instance, Processing) && exists t :: InTheWay(s, instance, t)
    case _ => false
  }

  /** The ticket is processing and nothing is in the way. */
  ghost predicate Freezable(s: Store, instance: int) {
    HasStatus(s, instance, Processing) && forall t :: !InTheWay(s, instance, t)
  }

  /** No task of the instance is marked as compensation any more; nothing else changes but, perhaps, its ticket. */
  ghost predicate Unmarks(s: Store, s': Store, instance: int) {
    OnlyInstance(s, s', instance)
    && forall t | t in s.tasks && s.tasks[t].instance == instance :: s'.tasks[t] == s.tasks[t].(kind := Process)
  }

  /** A processing ticket with nothing in the way is withdrawing afterwards, and no task of the instance is marked. */
  ghost predicate Freezes(s: Store, instance: int, s': Store, r: Result<(), DaoError>) {
    && (r.Err? ==> s' == s)
    && (forall e :: r == Err(e) <==> Forbids(s, instance, e))
    && (r.Ok? <==> Freezable(s, instance))
    && (r.Ok? ==> Unmarks(s, s', instance) && HasStatus(s', instance, Withdrawing))
  }

  lemma ObstaclesMatch(s: Store, instance: int, t: nat)
    ensures InTheWay(s, instance, t) <==> t in s.tasks && Obstructs(s, instance, t)
  {
    if t in s.tasks && s.tasks[t].instance == instance && Executing(s.tasks[t]) {
      forall u | u in s.tasks && s.tasks[u].instance == instance && s.tasks[u].status == TaskStatus.Success
        && s.tasks[u].compensation == s.tasks[t].node
        ensures Covered(s, instance, s.tasks[t].node)
      {
        assert Compensates(s, u, instance, s.tasks[t].node);
      }
    }
  }

  lemma PrepareLaw(s: Store, instance: int)
    ensures Freezes(s, instance, Prepare(s, instance).store, Prepare(s, instance).result)
  {
    forall t ensures InTheWay(s, instance, t) <==> t in s.tasks && Obstructs(s, instance, t) {
      ObstaclesMatch(s, instance, t);
    }
  }

  /** One task of the instance: idle ones outside the plan are cancelled, idle unmarked ones in it wait for now with the
      schedule they had, and all in it are marked. */
  ghost predicate Compensating(task: Task, task': Task, nodes: seq<string>, now: int) {
    && (task.node !in nodes && Idle(task) ==> task' == task.(status := TaskStatus.Cancelled))
    && (task.node !in nodes && !Idle(task) ==> task' == task)
    && (task.node in nodes && !(Idle(task) && task.kind == Process) ==> task' == task.(kind := Compensation))
    && (task.node in nodes && Idle(task) && task.kind == Process ==>
          && task'.status == TaskStatus.Waiting && task'.kind == Compensation && task'.scheduledAt == now
          && task'.originalScheduledAt == (if task.originalScheduledAt == 0 then task.scheduledAt else task.originalScheduledAt)
          && task' == task.(status := task'.status, kind := task'.kind, scheduledAt := task'.scheduledAt,
                            originalScheduledAt := task'.originalScheduledAt))
  }

  ghost predicate Activates(s: Store, instance: int, nodes: seq<string>, now: int, s': Store, r: Result<(), DaoError>) {
    && r == (if instance !in s.tickets then Err(NotFound)
             else if s.tickets[instance] == Withdrawing || s.tickets[instance] == Withdrawn then Ok(()) else Err(NotProcessing))
    && (!HasStatus(s, instance, Withdrawing) ==> s' == s)
    && (HasStatus(s, instance, Withdrawing) ==> OnlyInstance(s, s', instance) && s'.tickets == s.tickets)
    && (HasStatus(s, instance, Withdrawing) ==>
          forall t | t in s.tasks && s.tasks[t].instance == instance :: Compensating(s.tasks[t], s'.tasks[t], nodes, now))
  }

  lemma ActivateLaw(s: Store, instance: int, nodes: seq<string>, now: int)
    ensures Activates(s, instance, nodes, now, ActivateCompensations(s, instance, nodes, now).store,
                      ActivateCompensations(s, instance, nodes, now).result)
  {
  }

  /** A withdrawing ticket is withdrawn exactly if every task marked as compensation has succeeded. */
  ghost predicate Finalizes(s: Store, instance: int, s': Store, r: Result<bool, DaoError>) {
    && (r == Err(NotFound) <==> instance !in s.tickets)
    && (r.Err? ==> s' == s && (r.error == NotFound || r.error == NotProcessing))
    && (r.Ok? <==> HasStatus(s, instance, Withdrawing) || HasStatus(s, instance, Withdrawn))
    && (r.Ok? ==> OnlyInstance(s, s', instance) && s'.tasks == s.tasks)
    && (r.Ok? ==> s'.tickets[instance] == if r.value then Withdrawn else Withdrawing)
    && (r.Ok? && s.tickets[instance] == Withdrawn ==> r.value)
    && (r.Ok? && s.tickets[instance] == Withdrawing ==>
          (r.value <==> forall t | t in s.tasks && s.tasks[t].instance == instance && s.tasks[t].kind == Compensation ::
                          s.tasks[t].status == TaskStatus.Success))
  }

  lemma FinalizeLaw(s: Store, instance: int)
    ensures Finalizes(s, instance, TryFinalize(s, instance).store, TryFinalize(s, instance).result)
  {
    forall t | t in s.tasks
      ensures Unfinished(s, instance, t) <==>
        s.tasks[t].instance == instance && s.tasks[t].kind == Compensation && s.tasks[t].status != TaskStatus.Success
    {
    }
  }

  /** A withdrawing ticket is processing again; nothing else changes. */
  ghost predicate RollsBack(s: Store, instance: int, s': Store) {
    && OnlyInstance(s, s', instance) && s'.tasks == s.tasks
    && (instance in s.tickets ==>
          s'.tickets[instance] == if s.tickets[instance] == Withdrawing then Processing else s.tickets[instance])
  }

  lemma RollbackLaw(s: Store, instance: int)
    ensures RollsBack(s, instance, Rollback(s, instance))
  {
  }
}
