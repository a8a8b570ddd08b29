/** The transactions of the withdrawal state machine: bulk updates over one instance's rows. */
module WithdrawalModel {
  import opened Prelude
  import opened AutomationModel

  predicate HasStatus(s: Store, instance: int, status: TicketStatus) {
    instance in s.tickets && s.tickets[instance] == status
  }

  /** `source` has succeeded and names `node` as the node that undoes it. */
  predicate Compensates(s: Store, source: nat, instance: int, node: string) {
    && source in s.tasks
    && s.tasks[source].instance == instance
    && s.tasks[source].status.Success?
    && s.tasks[source].compensation == node
  }

  predicate Covered(s: Store, instance: int, node: string) {
    exists source :: source in s.tasks && Compensates(s, source, instance, node)
  }

  predicate ActiveIn(s: Store, instance: int, t: nat) {
    t in s.tasks && s.tasks[t].instance == instance && s.tasks[t].status.Active()
  }

  /** An executing task that no succeeded task names as its compensation. */
  predicate Obstructs(s: Store, instance: int, t: nat) {
    ActiveIn(s, instance, t) && !Covered(s, instance, s.tasks[t].node)
  }

  function Prepare(s: Store, instance: int): Outcome<()> {
    if instance !in s.tickets then Outcome(s, Err(NotFound)) else
    if !s.tickets[instance].Processing? then Outcome(s, Err(NotProcessing)) else
    if exists t :: t in s.tasks && Obstructs(s, instance, t) then Outcome(s, Err(AutomationRunning)) else
    Outcome(
      s.(tickets := s.tickets[instance := Withdrawing],
         tasks := map t | t in s.tasks ::
           if s.tasks[t].instance == instance then s.tasks[t].(kind := Process) else s.tasks[t]),
      Ok(()))
  }

  /** What activating the compensation plan `nodes` does to one task of the instance. */
  function Activated(task: Task, nodes: seq<string>, now: int): Task {
    if task.node !in nodes then
      if task.status.Pending() then task.(status := TaskStatus.Cancelled) else task
    else if task.kind.Process? && task.status.Pending() then
      task.(status := TaskStatus.Waiting, kind := Compensation, scheduledAt := now,
            originalScheduledAt :=
              if task.originalScheduledAt == 0 then task.scheduledAt else task.originalScheduledAt)
    else
      task.(kind := Compensation)
  }

  function ActivateCompensations(s: Store, instance: int, nodes: seq<string>, now: int): Outcome<()> {
    if instance !in s.tickets then Outcome(s, Err(NotFound)) else
    if s.tickets[instance].Withdrawn? then Outcome(s, Ok(())) else
    if !s.tickets[instance].Withdrawing? then Outcome(s, Err(NotProcessing)) else
    Outcome(
      s.(tasks := map t | t in s.tasks ::
           if s.tasks[t].instance == instance then Activated(s.tasks[t], nodes, now) else s.tasks[t]),
      Ok(()))
  }

  predicate Unfinished(s: Store, instance: int, t: nat) {
    && t in s.tasks && s.tasks[t].instance == instance
    && s.tasks[t].kind.Compensation? && !s.tasks[t].status.Success?
  }

  function TryFinalize(s: Store, instance: int): Outcome<bool> {
    if instance !in s.tickets then Outcome(s, Err(NotFound)) else
    if s.tickets[instance].Withdrawn? then Outcome(s, Ok(true)) else
    if !s.tickets[instance].Withdrawing? then Outcome(s, Err(NotProcessing)) else
    if exists t :: t in s.tasks && Unfinished(s, instance, t) then Outcome(s, Ok(false)) else
    Outcome(s.(tickets := s.tickets[instance := Withdrawn]), Ok(true))
  }

  function Rollback(s: Store, instance: int): Store {
    if instance in s.tickets && s.tickets[instance].Withdrawing? then
      s.(tickets := s.tickets[instance := Processing])
    else s
  }
}
