/** The automation tables as they are updated in place, one method per transaction, and the
    compensation planner's loop over the task rows. */
module AutomationDb {
  import opened Prelude
  import opened AutomationModel
  import opened WithdrawalModel
  import opened WithdrawalProtocol
  import opened AutomationLaws

  class Database {
    var tickets: map<int, TicketStatus>
    var tasks: map<nat, Task>
    var attempts: map<nat, Attempt>
    var nextAttempt: nat

    constructor ()
      ensures State() == Store(map[], map[], map[], 1)
    {
      tickets, tasks, attempts, nextAttempt := map[], map[], map[], 1;
    }

    function State(): Store
      reads this
    {
      Store(tickets, tasks, attempts, nextAttempt)
    }

    /** The highest attempt number of a task, 0 if it has no attempt. */
    method FindLastNumber(id: nat) returns (last: nat)
      ensures last == LastNumber(attempts, id)
    {
      last := 0;
      var rest := attempts.Keys;
      while rest != {}
        invariant rest <= attempts.Keys
        invariant forall a | a in attempts.Keys - rest && attempts[a].task == id :: attempts[a].number <= last
        invariant last == 0 || exists a :: a in attempts && attempts[a].task == id && attempts[a].number == last
        decreases rest
      {
        var a :| a in rest;
        rest := rest - {a};
        if attempts[a].task == id && last < attempts[a].number {
          last := attempts[a].number;
        }
      }
    }

    method Begin(id: nat) returns (r: Result<nat, DaoError>)
      modifies this
      ensures Outcome(State(), r) == AutomationModel.Begin(old(State()), id)
      ensures Begins(old(State()), id, State(), r)
    {
      BeginLaw(State(), id);
      if id !in tasks || tasks[id].instance !in tickets {
        return Err(NotFound);
      }
      var ticket := tickets[tasks[id].instance];
      var task := tasks[id];
      if task.current > 0 && (task.status.Submitting? || task.status.Running?) {
        return if task.current in attempts then Ok(task.current) else Err(NotFound);
      }
      if !task.status.Waiting? {
        return Err(NotRunnable);
      }
      if !AllowsStart(task.kind, ticket) {
        return Err(NotRunnable);
      }
      var attempt := AddAttempt(id);
      return Ok(attempt);
    }

    /** A new attempt, numbered on from the task's last, becomes the current one of the task. */
    method AddAttempt(id: nat) returns (attempt: nat)
      requires id in tasks
      modifies this
      ensures attempt == old(nextAttempt) && nextAttempt == attempt + 1 && tickets == old(tickets)
      ensures var number := LastNumber(old(attempts), id) + 1;
        attempts == old(attempts)[attempt := Attempt(id, number, RequestId(id, number), None, AttemptStatus.Submitting)]
      ensures tasks == old(tasks)[id := old(tasks)[id].(status := TaskStatus.Submitting, current := attempt)]
    {
      var last := FindLastNumber(id);
      var number := last + 1;
      attempt := nextAttempt;
      nextAttempt := nextAttempt + 1;
      attempts := attempts[attempt := Attempt(id, number, RequestId(id, number), None, AttemptStatus.Submitting)];
      tasks := tasks[id := tasks[id].(status := TaskStatus.Submitting, current := attempt)];
    }

    /** Writes the task status behind an attempt, unless the task has moved on. */
    method UpdateTask(attempt: nat, running: bool, status: TaskStatus)
      requires attempt in attempts
      modifies this`tasks
      ensures tasks == MoveTask(old(State()), attempt, running, status)
    {
      var id := attempts[attempt].task;
      if id in tasks && tasks[id].current == attempt {
        if tasks[id].status.Submitting? || (running && tasks[id].status.Running?) {
          tasks := tasks[id := tasks[id].(status := status)];
        }
      }
    }

    method BindExecution(id: nat, execution: int) returns (r: Result<(), DaoError>)
      modifies this
      ensures Outcome(State(), r) == AutomationModel.BindExecution(old(State()), id, execution)
      ensures Binds(old(State()), id, execution, State(), r)
    {
      BindLaw(State(), id, execution);
      if id !in attempts || attempts[id].task !in tasks {
        return Err(NotFound);
      }
      var attempt := attempts[id];
      if attempt.execution.Some? && attempt.execution.value != execution {
        return Err(BoundElsewhere);
      }
      var updated := attempt.(execution := Some(execution));
      if !attempt.status.IsTerminal() {
        updated := updated.(status := AttemptStatus.Running);
      }
      attempts := attempts[id := updated];
      if attempt.status.IsTerminal() {
        return Ok(());
      }
      UpdateTask(id, false, TaskStatus.Running);
      return Ok(());
    }

    method RejectSubmission(id: nat) returns (r: Result<(), DaoError>)
      modifies this
      ensures Outcome(State(), r) == AutomationModel.RejectSubmission(old(State()), id)
      ensures Rejects(old(State()), id, State(), r)
    {
      RejectLaw(State(), id);
      if id !in attempts || attempts[id].task !in tasks {
        return Err(NotFound);
      }
      if attempts[id].status.IsTerminal() {
        return Ok(());
      }
      attempts := attempts[id := attempts[id].(status := AttemptStatus.Failed)];
      UpdateTask(id, false, TaskStatus.Blocked);
      return Ok(());
    }

    method TerminateTask(id: nat) returns (r: Result<nat, DaoError>)
      modifies this
      ensures Outcome(State(), r) == AutomationModel.TerminateTask(old(State()), id)
      ensures Terminates(old(State()), id, State(), r)
    {
      TerminateLaw(State(), id);
      if id !in tasks {
        return Err(NotFound);
      }
      var task := tasks[id];
      if !task.status.Cancelled? && !task.status.CanTerminate() {
        return Err(CannotTerminate);
      }
      var saved := tasks;
      if !task.status.Cancelled? {
        tasks := tasks[id := task.(status := TaskStatus.Cancelled)];
      }
      if task.current == 0 {
        return Ok(0);
      }
      if task.current !in attempts {
        tasks := saved;
        return Err(NotFound);
      }
      if !attempts[task.current].status.IsTerminal() {
        attempts := attempts[task.current := attempts[task.current].(status := AttemptStatus.Cancelled)];
      }
      return Ok(task.current);
    }

    /** The first attempt, by primary key, that carries the request identifier. */
    method FindByRequest(request: string) returns (found: Option<nat>)
      ensures found.None? <==> WithRequest(State(), request) == {}
      ensures found.Some? ==> WithRequest(State(), request) != {} && found.value == MinOf(WithRequest(State(), request))
    {
      found := None;
      var rest := attempts.Keys;
      while rest != {}
        invariant rest <= attempts.Keys
        invariant found.None? ==> forall a | a in attempts.Keys - rest :: attempts[a].request != request
        invariant found.Some? ==> found.value in WithRequest(State(), request) - rest
        invariant found.Some? ==> forall a | a in attempts.Keys - rest && attempts[a].request == request :: found.value <= a
        decreases rest
      {
        var a :| a in rest;
        rest := rest - {a};
        if attempts[a].request == request && (found.None? || a < found.value) {
          found := Some(a);
        }
      }
    }

    method Complete(request: string, reported: AttemptStatus) returns (r: Result<nat, DaoError>)
      modifies this
      ensures Outcome(State(), r) == AutomationModel.Complete(old(State()), request, reported)
      ensures Completes(old(State()), request, reported, State(), r)
    {
      CompleteLaw(State(), request, reported);
      var found := FindByRequest(request);
      if found.None? || attempts[found.value].task !in tasks {
        return Err(NotFound);
      }
      var id := found.value;
      if attempts[id].status.IsTerminal() {
        return Ok(id);
      }
      var attemptStatus, taskStatus := AttemptStatus.Failed, TaskStatus.Failed;
      if reported.Success? {
        attemptStatus, taskStatus := AttemptStatus.Success, TaskStatus.Success;
      } else if reported.Cancelled? {
        attemptStatus, taskStatus := AttemptStatus.Cancelled, TaskStatus.Cancelled;
      }
      attempts := attempts[id := attempts[id].(status := attemptStatus)];
      UpdateTask(id, true, taskStatus);
      return Ok(id);
    }

    method PrepareRetry(id: nat) returns (r: Result<(), DaoError>)
      modifies this
      ensures Outcome(State(), r) == AutomationModel.PrepareRetry(old(State()), id)
      ensures Resets(old(State()), id, State(), r)
    {
      RetryLaw(State(), id);
      if id in tasks && (tasks[id].status.Failed? || tasks[id].status.Blocked? || tasks[id].status.Cancelled?) {
        tasks := tasks[id := tasks[id].(status := TaskStatus.Waiting)];
        return Ok(());
      }
      return Err(CannotRetry);
    }

    method Block(id: nat)
      modifies this
      ensures State() == AutomationModel.Block(old(State()), id)
      ensures Blocks(old(State()), id, State())
    {
      BlockLaw(State(), id);
      if id in tasks && (tasks[id].status.Waiting? || tasks[id].status.Failed?) {
        tasks := tasks[id := tasks[id].(status := TaskStatus.Blocked)];
      }
    }

    /** Creates the task of a node, unless the node already has one (the unique index refuses it). */
    method CreateTask(id: nat, instance: int, node: string, compensation: string, scheduledAt: int, blocked: bool)
      requires id !in tasks
      modifies this
      ensures State() == AutomationModel.CreateTask(old(State()), id, instance, node, compensation, scheduledAt, blocked)
      ensures Creates(old(State()), id, instance, node, compensation, scheduledAt, blocked, State())
    {
      CreateLaw(State(), id, instance, node, compensation, scheduledAt, blocked);
      var taken := exists t | t in tasks :: tasks[t].instance == instance && tasks[t].node == node;
      if !taken {
        var status, schedule := TaskStatus.Waiting, scheduledAt;
        if blocked {
          status, schedule := TaskStatus.Blocked, 0;
        }
        tasks := tasks[id := Task(instance, node, compensation, status, Process, 0, schedule, schedule, 0)];
      }
    }

    method MarkAdvanced(id: nat, now: int)
      modifies this
      ensures State() == AutomationModel.MarkAdvanced(old(State()), id, now)
      ensures Advances(old(State()), id, now, State())
    {
      AdvanceLaw(State(), id, now);
      if id in tasks && tasks[id].advancedAt == 0 {
        tasks := tasks[id := tasks[id].(advancedAt := now)];
      }
    }

    // -------------------------------------------------------------- withdrawal

    /** Whether some succeeded task of the instance names `node` as its compensation. */
    method HasSource(instance: int, node: string) returns (found: bool)
      ensures found <==> Covered(State(), instance, node)
    {
      found := false;
      var rest := tasks.Keys;
      while rest != {} && !found
        invariant rest <= tasks.Keys
        invariant !found ==> forall t | t in tasks.Keys - rest :: !Compensates(State(), t, instance, node)
        invariant found ==> Covered(State(), instance, node)
        decreases rest
      {
        var t :| t in rest;
        rest := rest - {t};
        if tasks[t].instance == instance && tasks[t].status.Success? && tasks[t].compensation == node {
          assert Compensates(State(), t, instance, node);
          found := true;
        }
      }
    }

    method CountObstructing(instance: int) returns (active: nat)
      ensures active > 0 <==> exists t :: t in tasks && Obstructs(State(), instance, t)
    {
      active := 0;
      var rest := tasks.Keys;
      while rest != {}
        invariant rest <= tasks.Keys
        invariant active == 0 ==> forall t | t in tasks.Keys - rest :: !Obstructs(State(), instance, t)
        invariant active > 0 ==> exists t :: t in tasks && Obstructs(State(), instance, t)
        decreases rest
      {
        var t :| t in rest;
        rest := rest - {t};
        if tasks[t].instance == instance && tasks[t].status.Active() {
          var covered := HasSource(instance, tasks[t].node);
          if !covered {
            assert Obstructs(State(), instance, t);
            active := active + 1;
          }
        }
      }
    }

    method Prepare(instance: int) returns (r: Result<(), DaoError>)
      modifies this
      ensures Outcome(State(), r) == WithdrawalModel.Prepare(old(State()), instance)
      ensures Freezes(old(State()), instance, State(), r)
    {
      PrepareLaw(State(), instance);
      if instance !in tickets {
        return Err(NotFound);
      }
      if !tickets[instance].Processing? {
        return Err(NotProcessing);
      }
      var active := CountObstructing(instance);
      if active > 0 {
        return Err(AutomationRunning);
      }
      tickets := tickets[instance := Withdrawing];
      ghost var before := tasks;
      var rest := tasks.Keys;
      while rest != {}
        invariant rest <= tasks.Keys == before.Keys
        invariant State() == old(State()).(tickets := tickets, tasks := tasks)
        invariant tickets == old(tickets)[instance := Withdrawing]
        invariant forall t | t in rest :: tasks[t] == before[t]
        invariant forall t | t in before.Keys - rest ::
          tasks[t] == if before[t].instance == instance then before[t].(kind := Process) else before[t]
        decreases rest
      {
        var t :| t in rest;
        rest := rest - {t};
        if tasks[t].instance == instance {
          tasks := tasks[t := tasks[t].(kind := Process)];
        }
      }
      assert tasks == WithdrawalModel.Prepare(old(State()), instance).store.tasks;
      return Ok(());
    }

    /** Cancels, restarts or marks one row, in the order the transaction issues its updates. */
    method ActivateRow(t: nat, nodes: seq<string>, now: int)
      requires t in tasks
      modifies this`tasks
      ensures tasks == old(tasks)[t := Activated(old(tasks)[t], nodes, now)]
    {
      var task := tasks[t];
      if task.status.Pending() && task.node !in nodes {
        task := task.(status := TaskStatus.Cancelled);
      }
      if |nodes| > 0 {
        if task.node in nodes && !task.kind.Compensation? && task.status.Pending() {
          var original := if task.originalScheduledAt == 0 then task.scheduledAt else task.originalScheduledAt;
          task := task.(status := TaskStatus.Waiting, originalScheduledAt := original, scheduledAt := now);
        }
        if task.node in nodes {
          task := task.(kind := Compensation);
        }
      }
      tasks := tasks[t := task];
    }

    method ActivateCompensations(instance: int, nodes: seq<string>, now: int) returns (r: Result<(), DaoError>)
      modifies this
      ensures Outcome(State(), r) == WithdrawalModel.ActivateCompensations(old(State()), instance, nodes, now)
      ensures Activates(old(State()), instance, nodes, now, State(), r)
    {
      ActivateLaw(State(), instance, nodes, now);
      if instance !in tickets {
        return Err(NotFound);
      }
      if tickets[instance].Withdrawn? {
        return Ok(());
      }
      if !tickets[instance].Withdrawing? {
        return Err(NotProcessing);
      }
      ghost var before := tasks;
      var rest := tasks.Keys;
      while rest != {}
        invariant rest <= tasks.Keys == before.Keys
        invariant State() == old(State()).(tasks := tasks)
        invariant forall t | t in rest :: tasks[t] == before[t]
        invariant forall t | t in before.Keys - rest ::
          tasks[t] == if before[t].instance == instance then Activated(before[t], nodes, now) else before[t]
        decreases rest
      {
        var t :| t in rest;
        rest := rest - {t};
        if tasks[t].instance == instance {
          ActivateRow(t, nodes, now);
        }
      }
      assert tasks == WithdrawalModel.ActivateCompensations(old(State()), instance, nodes, now).store.tasks;
      return Ok(());
    }

    method TryFinalize(instance: int) returns (r: Result<bool, DaoError>)
      modifies this
      ensures Outcome(State(), r) == WithdrawalModel.TryFinalize(old(State()), instance)
      ensures AutomationLaws.Finalizes(old(State()), instance, State(), r)
    {
      FinalizeLaw(State(), instance);
      if instance !in tickets {
        return Err(NotFound);
      }
      if tickets[instance].Withdrawn? {
        return Ok(true);
      }
      if !tickets[instance].Withdrawing? {
        return Err(NotProcessing);
      }
      var unfinished := 0;
      var rest := tasks.Keys;
      while rest != {}
        invariant rest <= tasks.Keys && unfinished >= 0
        invariant unfinished == 0 ==> forall t | t in tasks.Keys - rest :: !Unfinished(State(), instance, t)
        invariant unfinished > 0 ==> exists t :: t in tasks && Unfinished(State(), instance, t)
        decreases rest
      {
        var t :| t in rest;
        rest := rest - {t};
        if tasks[t].instance == instance && tasks[t].kind.Compensation? && !tasks[t].status.Success? {
          assert Unfinished(State(), instance, t);
          unfinished := unfinished + 1;
        }
      }
      if unfinished > 0 {
        return Ok(false);
      }
      tickets := tickets[instance := Withdrawn];
      return Ok(true);
    }

    method Rollback(instance: int)
      modifies this
      ensures State() == WithdrawalModel.Rollback(old(State()), instance)
      ensures RollsBack(old(State()), instance, State())
    {
      RollbackLaw(State(), instance);
      if instance in tickets && tickets[instance].Withdrawing? {
        tickets := tickets[instance := Processing];
      }
    }
  }

  /** The planner's pass over the listed rows: each compensation node once, in first-seen order. */
  method CollectTargets(rows: seq<Task>) returns (targets: seq<string>)
    ensures targets == PlanTargets(rows)
    ensures Distinct(targets) && InListingOrder(rows, targets) && forall node :: node in targets <==> NamedBySuccess(rows, node)
  {
    PlanInOrder(rows);
    targets := [];
    var seen: set<string> := {};
    for k := 0 to |rows|
      invariant targets == PlanTargets(rows[..k])
      invariant seen == Elements(targets)
    {
      assert rows[..k + 1][..k] == rows[..k];
      if rows[k].status.Success? && rows[k].compensation != "" && rows[k].compensation !in seen {
        seen := seen + {rows[k].compensation};
        targets := targets + [rows[k].compensation];
      }
    }
    assert rows[..|rows|] == rows;
  }
}
