/** Rows of the automation tables and the transactions of the attempt and task tables,
    each as a function from the stored state to the state it leaves. */
module AutomationModel {
  import opened Prelude

  datatype TaskStatus = Success | Failed | Running | Waiting | Blocked | Submitting | Cancelled
  {
    predicate Active() { Submitting? || Running? }
    predicate CanRetry() { Failed? || Blocked? || Cancelled? }
    predicate CanTerminate() { Waiting? || Blocked? || Failed? || Submitting? || Running? }
    /** The statuses a withdrawal may cancel or restart. */
    predicate Pending() { Waiting? || Blocked? || Failed? }
  }

  datatype ExecutionKind = Process | Compensation

  datatype TicketStatus = Start | Processing | Ended | Withdrawn | Withdrawing | StartFailed

  datatype AttemptStatus = Submitting | Running | Success | Failed | Cancelled
  {
    predicate IsTerminal() { Success? || Failed? || Cancelled? }
  }

  /** One automation node of one process instance; `current` is 0 before the first attempt. */
  datatype Task = Task(
    instance: int, node: string, compensation: string,
    status: TaskStatus, kind: ExecutionKind, current: nat,
    scheduledAt: int, originalScheduledAt: int, advancedAt: int)

  /** One submission of a task to etask. */
  datatype Attempt = Attempt(
    task: nat, number: nat, request: string,
    execution: Option<int>, status: AttemptStatus)

  /** The three tables. A ticket is named by its process instance. */
  datatype Store = Store(
    tickets: map<int, TicketStatus>, tasks: map<nat, Task>,
    attempts: map<nat, Attempt>, nextAttempt: nat)

  datatype DaoError =
    | NotFound | NotRunnable | BoundElsewhere | CannotTerminate | CannotRetry
    | NotProcessing | AutomationRunning | DuplicateNode

  /** What a transaction leaves behind and answers. */
  datatype Outcome<+T> = Outcome(store: Store, result: Result<T, DaoError>)

  predicate AllowsStart(kind: ExecutionKind, ticket: TicketStatus) {
    (kind.Process? && ticket.Processing?) || (kind.Compensation? && ticket.Withdrawing?)
  }

  // ---------------------------------------------------------------- request identifiers

  function Decimal(n: nat): string {
    if n < 10 then ["0123456789"[n]] else Decimal(n / 10) + ["0123456789"[n % 10]]
  }

  function RequestId(task: nat, number: nat): string {
    "eflow:" + Decimal(task) + ":" + Decimal(number)
  }

  lemma {:induction false} DecimalDigits(n: nat)
    ensures Decimal(n) != [] && ':' !in Decimal(n)
  {
    if n >= 10 { DecimalDigits(n / 10); }
  }

  lemma {:induction false} DecimalInjective(m: nat, n: nat)
    requires Decimal(m) == Decimal(n)
    ensures m == n
  {
    var a, b := Decimal(m), Decimal(n);
    if m >= 10 { DecimalDigits(m / 10); }
    if n >= 10 { DecimalDigits(n / 10); }
    assert a[|a| - 1] == b[|b| - 1];
    if m < 10 || n < 10 {
      assert |a| == 1 || |b| == 1;
    } else {
      assert a[..|a| - 1] == Decimal(m / 10);
      assert b[..|b| - 1] == Decimal(n / 10);
      DecimalInjective(m / 10, n / 10);
    }
  }

  /** The printed request identifier names one task and one attempt number. */
  lemma {:induction false} RequestIdInjective(task: nat, number: nat, task': nat, number': nat)
    requires RequestId(task, number) == RequestId(task', number')
    ensures task == task' && number == number'
  {
    var a, a' := Decimal(task), Decimal(task');
    DecimalDigits(task);
    DecimalDigits(task');
    assert RequestId(task, number)[6..] == a + ":" + Decimal(number);
    assert RequestId(task', number')[6..] == a' + ":" + Decimal(number');
    SplitAt(':', a, Decimal(number), a', Decimal(number'));
    DecimalInjective(task, task');
    DecimalInjective(number, number');
  }

  // ---------------------------------------------------------------- attempt transactions

  function LastNumber(attempts: map<nat, Attempt>, task: nat): (n: nat)
    ensures forall a | a in attempts && attempts[a].task == task :: attempts[a].number <= n
    ensures n == 0 || exists a :: a in attempts && attempts[a].task == task && attempts[a].number == n
  {
    var numbers := set a | a in attempts && attempts[a].task == task :: attempts[a].number;
    assert forall a | a in attempts && attempts[a].task == task :: attempts[a].number in numbers;
    if numbers == {} then 0 else MaxOf(numbers)
  }

  function Begin(s: Store, id: nat): Outcome<nat> {
    if id !in s.tasks || s.tasks[id].instance !in s.tickets then Outcome(s, Err(NotFound)) else
    var task := s.tasks[id];
    if task.current > 0 && task.status.Active() then
      Outcome(s, if task.current in s.attempts then Ok(task.current) else Err(NotFound))
    else if !task.status.Waiting? || !AllowsStart(task.kind, s.tickets[task.instance]) then
      Outcome(s, Err(NotRunnable))
    else
      var number := LastNumber(s.attempts, id) + 1;
      var attempt := Attempt(id, number, RequestId(id, number), None, AttemptStatus.Submitting);
      Outcome(
        s.(attempts := s.attempts[s.nextAttempt := attempt],
           tasks := s.tasks[id := task.(status := TaskStatus.Submitting, current := s.nextAttempt)],
           nextAttempt := s.nextAttempt + 1),
        Ok(s.nextAttempt))
  }

  /** The task status written only when `attempt` is still the task's current one. */
  function MoveTask(s: Store, attempt: nat, running: bool, status: TaskStatus): map<nat, Task>
    requires attempt in s.attempts
  {
    var id := s.attempts[attempt].task;
    if id in s.tasks && s.tasks[id].current == attempt
       && (s.tasks[id].status.Submitting? || (running && s.tasks[id].status.Running?)) then
      s.tasks[id := s.tasks[id].(status := status)]
    else
      s.tasks
  }

  predicate Lockable(s: Store, attempt: nat) {
    attempt in s.attempts && s.attempts[attempt].task in s.tasks
  }

  function BindExecution(s: Store, id: nat, execution: int): Outcome<()> {
    if !Lockable(s, id) then Outcome(s, Err(NotFound)) else
    var attempt := s.attempts[id];
    if attempt.execution.Some? && attempt.execution.value != execution then
      Outcome(s, Err(BoundElsewhere))
    else if attempt.status.IsTerminal() then
      Outcome(s.(attempts := s.attempts[id := attempt.(execution := Some(execution))]), Ok(()))
    else
      var bound := attempt.(execution := Some(execution), status := AttemptStatus.Running);
      Outcome(
        s.(attempts := s.attempts[id := bound], tasks := MoveTask(s, id, false, TaskStatus.Running)),
        Ok(()))
  }

  function RejectSubmission(s: Store, id: nat): Outcome<()> {
    if !Lockable(s, id) then Outcome(s, Err(NotFound)) else
    if s.attempts[id].status.IsTerminal() then Outcome(s, Ok(())) else
    Outcome(
      s.(attempts := s.attempts[id := s.attempts[id].(status := AttemptStatus.Failed)],
         tasks := MoveTask(s, id, false, TaskStatus.Blocked)),
      Ok(()))
  }

  function TerminateTask(s: Store, id: nat): Outcome<nat> {
    if id !in s.tasks then Outcome(s, Err(NotFound)) else
    var task := s.tasks[id];
    if !task.status.Cancelled? && !task.status.CanTerminate() then Outcome(s, Err(CannotTerminate)) else
    var tasks := s.tasks[id := task.(status := TaskStatus.Cancelled)];
    if task.current == 0 then Outcome(s.(tasks := tasks), Ok(0)) else
    if task.current !in s.attempts then Outcome(s, Err(NotFound)) else
    var attempt := s.attempts[task.current];
    if attempt.status.IsTerminal() then Outcome(s.(tasks := tasks), Ok(task.current)) else
    var cancelled := attempt.(status := AttemptStatus.Cancelled);
    Outcome(s.(tasks := tasks, attempts := s.attempts[task.current := cancelled]), Ok(task.current))
  }

  /** How an etask result is stored on the attempt and on the task. */
  function AttemptEnd(reported: AttemptStatus): AttemptStatus {
    if reported.Success? then AttemptStatus.Success
    else if reported.Cancelled? then AttemptStatus.Cancelled
    else AttemptStatus.Failed
  }

  function TaskEnd(reported: AttemptStatus): TaskStatus {
    if reported.Success? then TaskStatus.Success
    else if reported.Cancelled? then TaskStatus.Cancelled
    else TaskStatus.Failed
  }

  /** The attempts carrying a request identifier. */
  function WithRequest(s: Store, request: string): set<nat> {
    set a | a in s.attempts && s.attempts[a].request == request
  }

  function CompleteById(s: Store, id: nat, reported: AttemptStatus): Outcome<nat> {
    if !Lockable(s, id) then Outcome(s, Err(NotFound)) else
    if s.attempts[id].status.IsTerminal() then Outcome(s, Ok(id)) else
    Outcome(
      s.(attempts := s.attempts[id := s.attempts[id].(status := AttemptEnd(reported))],
         tasks := MoveTask(s, id, true, TaskEnd(reported))),
      Ok(id))
  }

  function Complete(s: Store, request: string, reported: AttemptStatus): Outcome<nat> {
    var found := WithRequest(s, request);
    if found == {} then Outcome(s, Err(NotFound)) else CompleteById(s, MinOf(found), reported)
  }

  // ---------------------------------------------------------------- task transactions

  predicate NodeTaken(s: Store, instance: int, node: string) {
    exists t :: t in s.tasks && s.tasks[t].instance == instance && s.tasks[t].node == node
  }

  /** Creates the task of a node unless the node already has one. */
  function CreateTask(s: Store, id: nat, instance: int, node: string, compensation: string,
                      scheduledAt: int, blocked: bool): Store
  {
    if NodeTaken(s, instance, node) || id in s.tasks then s else
    var schedule := if blocked then 0 else scheduledAt;
    s.(tasks := s.tasks[id := Task(
      instance, node, compensation, if blocked then TaskStatus.Blocked else TaskStatus.Waiting,
      Process, 0, schedule, schedule, 0)])
  }

  function Block(s: Store, id: nat): Store {
    if id in s.tasks && (s.tasks[id].status.Waiting? || s.tasks[id].status.Failed?) then
      s.(tasks := s.tasks[id := s.tasks[id].(status := TaskStatus.Blocked)])
    else s
  }

  function PrepareRetry(s: Store, id: nat): Outcome<()> {
    if id in s.tasks && s.tasks[id].status.CanRetry() then
      Outcome(s.(tasks := s.tasks[id := s.tasks[id].(status := TaskStatus.Waiting)]), Ok(()))
    else
      Outcome(s, Err(CannotRetry))
  }

  function MarkAdvanced(s: Store, id: nat, now: int): Store {
    if id in s.tasks && s.tasks[id].advancedAt == 0 then
      s.(tasks := s.tasks[id := s.tasks[id].(advancedAt := now)])
    else s
  }
}
