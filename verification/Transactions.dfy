/** Every transaction of the automation tables as one step, and what each step keeps. */
module Transactions {
  import opened Prelude
  import opened AutomationModel
  import opened WithdrawalModel

  datatype Transaction =
    | OpenTicket(instance: int)
    | EndTicket(instance: int)
    | CreateTask(id: nat, instance: int, node: string, compensation: string, scheduledAt: int, blocked: bool)
    | Begin(id: nat)
    | BindExecution(id: nat, execution: int)
    | RejectSubmission(id: nat)
    | TerminateTask(id: nat)
    | Complete(request: string, reported: AttemptStatus)
    | Block(id: nat)
    | PrepareRetry(id: nat)
    | MarkAdvanced(id: nat, now: int)
    | Prepare(instance: int)
    | Activate(instance: int, nodes: seq<string>, now: int)
    | TryFinalize(instance: int)
    | Rollback(instance: int)

  /** The state a transaction leaves; a refused transaction leaves the state it found. */
  function Run(s: Store, step: Transaction): Store {
    match step
    case OpenTicket(i) => if i in s.tickets then s else s.(tickets := s.tickets[i := Processing])
    case EndTicket(i) =>
      if i in s.tickets && s.tickets[i].Processing? then s.(tickets := s.tickets[i := Ended]) else s
    case CreateTask(id, i, node, compensation, at, blocked) =>
      if i in s.tickets && node != "" then
        AutomationModel.CreateTask(s, id, i, node, compensation, at, blocked)
      else s
    case Begin(id) => AutomationModel.Begin(s, id).store
    case BindExecution(id, e) => AutomationModel.BindExecution(s, id, e).store
    case RejectSubmission(id) => AutomationModel.RejectSubmission(s, id).store
    case TerminateTask(id) => AutomationModel.TerminateTask(s, id).store
    case Complete(request, reported) => AutomationModel.Complete(s, request, reported).store
    case Block(id) => AutomationModel.Block(s, id)
    case PrepareRetry(id) => AutomationModel.PrepareRetry(s, id).store
    case MarkAdvanced(id, now) => AutomationModel.MarkAdvanced(s, id, now)
    case Prepare(i) => WithdrawalModel.Prepare(s, i).store
    case Activate(i, nodes, now) => ActivateCompensations(s, i, nodes, now).store
    case TryFinalize(i) => WithdrawalModel.TryFinalize(s, i).store
    case Rollback(i) => WithdrawalModel.Rollback(s, i)
  }

  // ---------------------------------------------------------------- what every state keeps

  ghost predicate TaskOk(s: Store, t: nat)
    requires t in s.tasks
  {
    && s.tasks[t].instance in s.tickets
    && s.tasks[t].node != ""
    && (s.tasks[t].current != 0 ==>
          s.tasks[t].current in s.attempts && s.attempts[s.tasks[t].current].task == t)
    && (s.tasks[t].status.Active() ==> s.tasks[t].current != 0)
  }

  /** A live attempt is its task's current attempt, and that task is submitting or running. */
  ghost predicate AttemptOk(s: Store, a: nat)
    requires a in s.attempts
  {
    var attempt := s.attempts[a];
    && 0 < a < s.nextAttempt
    && attempt.task in s.tasks
    && (!attempt.status.IsTerminal() ==>
          s.tasks[attempt.task].current == a && s.tasks[attempt.task].status.Active())
  }

  ghost predicate SameTask(s: Store, a: nat, b: nat)
    requires a in s.attempts && b in s.attempts
  {
    s.attempts[a].task == s.attempts[b].task
  }

  ghost predicate HasPrevious(s: Store, a: nat)
    requires a in s.attempts
  {
    exists b :: b in s.attempts && SameTask(s, a, b) && s.attempts[b].number == s.attempts[a].number - 1
  }

  /** Attempts of one task are numbered in creation order, starting at one, without gaps. */
  ghost predicate Numbered(s: Store) {
    && (forall a | a in s.attempts :: s.attempts[a].number >= 1)
    && (forall a | a in s.attempts :: s.attempts[a].request == RequestId(s.attempts[a].task, s.attempts[a].number))
    && (forall a, b | a in s.attempts && b in s.attempts && a < b && SameTask(s, a, b) ::
          s.attempts[a].number < s.attempts[b].number)
    && (forall a {:trigger HasPrevious(s, a)} | a in s.attempts && s.attempts[a].number > 1 :: HasPrevious(s, a))
  }

  ghost predicate OneTaskPerNode(s: Store) {
    forall t, u | t in s.tasks && u in s.tasks
      && s.tasks[t].instance == s.tasks[u].instance && s.tasks[t].node == s.tasks[u].node :: t == u
  }

  ghost predicate Linked(s: Store) {
    && s.nextAttempt > 0
    && (forall t | t in s.tasks :: TaskOk(s, t))
    && (forall a | a in s.attempts :: AttemptOk(s, a))
  }

  ghost predicate Consistent(s: Store) {
    && Linked(s)
    && OneTaskPerNode(s)
    && Numbered(s)
  }

  const EMPTY := Store(map[], map[], map[], 1)

  /** A fresh attempt row, with its task moved to submitting. */
  ghost predicate Adds(s: Store, s': Store, id: nat, number: nat) {
    && id in s.tasks && s.tasks[id].status.Waiting? && number == LastNumber(s.attempts, id) + 1
    && s' == s.(
      attempts := s.attempts[s.nextAttempt := Attempt(id, number, RequestId(id, number), None, AttemptStatus.Submitting)],
      tasks := s.tasks[id := s.tasks[id].(status := TaskStatus.Submitting, current := s.nextAttempt)],
      nextAttempt := s.nextAttempt + 1)
  }

  lemma BeginAdds(s: Store, id: nat)
    ensures Run(s, Begin(id)) == s || Adds(s, Run(s, Begin(id)), id, LastNumber(s.attempts, id) + 1)
  {
  }

  lemma AddKeepsLinked(s: Store, s': Store, id: nat, number: nat)
    requires Linked(s) && Adds(s, s', id, number)
    ensures Linked(s')
  {
    forall b | b in s'.attempts ensures AttemptOk(s', b) {
      if b != s.nextAttempt { assert AttemptOk(s, b); }
    }
    forall t | t in s'.tasks ensures TaskOk(s', t) { assert TaskOk(s, t); }
  }

  lemma AddKeepsOrder(s: Store, s': Store, id: nat, number: nat, b: nat, c: nat)
    requires Linked(s) && Numbered(s) && Adds(s, s', id, number)
    requires b in s'.attempts && c in s'.attempts && b < c && SameTask(s', b, c)
    ensures s'.attempts[b].number < s'.attempts[c].number
  {
    if c == s.nextAttempt {
      assert s.attempts[b].number <= LastNumber(s.attempts, id);
    } else {
      assert AttemptOk(s, c);
      assert SameTask(s, b, c);
    }
  }

  lemma AddKeepsPrevious(s: Store, s': Store, id: nat, number: nat, b: nat)
    requires Linked(s) && Numbered(s) && Adds(s, s', id, number) && s.nextAttempt !in s.attempts
    requires b in s'.attempts && s'.attempts[b].number > 1
    ensures HasPrevious(s', b)
  {
    if b == s.nextAttempt {
      var c :| c in s.attempts && s.attempts[c].task == id && s.attempts[c].number == LastNumber(s.attempts, id);
      assert SameTask(s', b, c);
    } else {
      assert HasPrevious(s, b);
      var c :| c in s.attempts && SameTask(s, b, c) && s.attempts[c].number == s.attempts[b].number - 1;
      assert SameTask(s', b, c);
    }
  }

  lemma NextIsFresh(s: Store)
    requires Linked(s)
    ensures forall a | a in s.attempts :: a < s.nextAttempt
  {
    forall a | a in s.attempts ensures a < s.nextAttempt { assert AttemptOk(s, a); }
  }

  lemma AddKeepsNumbered(s: Store, s': Store, id: nat, number: nat)
    requires Linked(s) && Numbered(s) && Adds(s, s', id, number)
    ensures Numbered(s')
  {
    NextIsFresh(s);
    forall b, c | b in s'.attempts && c in s'.attempts && b < c && SameTask(s', b, c)
      ensures s'.attempts[b].number < s'.attempts[c].number
    {
      AddKeepsOrder(s, s', id, number, b, c);
    }
    forall b | b in s'.attempts && s'.attempts[b].number > 1 ensures HasPrevious(s', b) {
      AddKeepsPrevious(s, s', id, number, b);
    }
  }

  lemma BeginKeepsConsistent(s: Store, id: nat)
    requires Consistent(s)
    ensures Consistent(Run(s, Begin(id)))
  {
    var s', number := Run(s, Begin(id)), LastNumber(s.attempts, id) + 1;
    BeginAdds(s, id);
    if s' != s {
      AddKeepsLinked(s, s', id, number);
      AddKeepsNumbered(s, s', id, number);
    }
  }

  ghost predicate AttemptShape(s: Store, s': Store, a: nat)
    requires a in s.attempts && a in s'.attempts
  {
    && s'.attempts[a].task == s.attempts[a].task
    && s'.attempts[a].number == s.attempts[a].number
    && s'.attempts[a].request == s.attempts[a].request
    && (!s'.attempts[a].status.IsTerminal() ==> !s.attempts[a].status.IsTerminal())
  }

  ghost predicate TaskShape(s: Store, s': Store, t: nat)
    requires t in s.tasks && t in s'.tasks && s'.attempts.Keys == s.attempts.Keys
  {
    && s'.tasks[t].instance == s.tasks[t].instance
    && s'.tasks[t].node == s.tasks[t].node
    && s'.tasks[t].current == s.tasks[t].current
    && (s'.tasks[t].status.Active() ==> s.tasks[t].status.Active())
    && (s.tasks[t].status.Active() && !s'.tasks[t].status.Active() && s.tasks[t].current in s.attempts ==>
          s'.attempts[s.tasks[t].current].status.IsTerminal())
  }

  /** Steps that keep the attempt rows' identity and let no task lose a live attempt. */
  ghost predicate KeepsShape(s: Store, s': Store) {
    && s'.attempts.Keys == s.attempts.Keys
    && s'.nextAttempt == s.nextAttempt
    && s.tickets.Keys <= s'.tickets.Keys
    && s'.tasks.Keys == s.tasks.Keys
    && (forall a {:trigger AttemptShape(s, s', a)} | a in s.attempts :: AttemptShape(s, s', a))
    && (forall t {:trigger TaskShape(s, s', t)} | t in s.tasks :: TaskShape(s, s', t))
  }

  lemma ShapeKeepsLinked(s: Store, s': Store)
    requires Linked(s) && KeepsShape(s, s')
    ensures Linked(s')
  {
    forall a | a in s'.attempts ensures AttemptOk(s', a) {
      assert AttemptShape(s, s', a) && AttemptOk(s, a);
      assert TaskOk(s, s.attempts[a].task) && TaskShape(s, s', s.attempts[a].task);
    }
    forall t | t in s'.tasks ensures TaskOk(s', t) {
      assert TaskOk(s, t) && TaskShape(s, s', t);
      assert s.tasks[t].current in s.attempts ==> AttemptShape(s, s', s.tasks[t].current);
    }
  }

  lemma ShapeKeepsNumbered(s: Store, s': Store)
    requires Numbered(s) && KeepsShape(s, s')
    ensures Numbered(s')
  {
    forall a | a in s'.attempts
      ensures s'.attempts[a].number >= 1
      ensures s'.attempts[a].request == RequestId(s'.attempts[a].task, s'.attempts[a].number)
    {
      assert AttemptShape(s, s', a);
    }
    forall a, b | a in s'.attempts && b in s'.attempts && a < b && SameTask(s', a, b)
      ensures s'.attempts[a].number < s'.attempts[b].number
    {
      assert AttemptShape(s, s', a) && AttemptShape(s, s', b);
      assert SameTask(s, a, b);
    }
    forall a | a in s'.attempts && s'.attempts[a].number > 1
      ensures HasPrevious(s', a)
    {
      assert AttemptShape(s, s', a) && HasPrevious(s, a);
      var b :| b in s.attempts && SameTask(s, a, b) && s.attempts[b].number == s.attempts[a].number - 1;
      assert AttemptShape(s, s', b) && SameTask(s', a, b);
    }
  }

  lemma ShapeKeepsConsistent(s: Store, s': Store)
    requires Consistent(s) && KeepsShape(s, s')
    ensures Consistent(s')
  {
    ShapeKeepsLinked(s, s');
    ShapeKeepsNumbered(s, s');
    forall t, u | t in s'.tasks && u in s'.tasks
      && s'.tasks[t].instance == s'.tasks[u].instance && s'.tasks[t].node == s'.tasks[u].node ensures t == u
    {
      assert TaskShape(s, s', t) && TaskShape(s, s', u);
    }
  }

  lemma CreateKeepsConsistent(s: Store, id: nat, i: int, node: string, comp: string, at: int, blocked: bool)
    requires Consistent(s)
    ensures Consistent(Run(s, CreateTask(id, i, node, comp, at, blocked)))
  {
    var s' := Run(s, CreateTask(id, i, node, comp, at, blocked));
    if s' != s {
      forall t | t in s'.tasks ensures TaskOk(s', t) {
        if t != id { assert TaskOk(s, t); }
      }
      forall a | a in s'.attempts ensures AttemptOk(s', a) {
        assert AttemptOk(s, a);
      }
      forall a, b | a in s'.attempts && b in s'.attempts && a < b && SameTask(s', a, b)
        ensures s'.attempts[a].number < s'.attempts[b].number
      {
        assert SameTask(s, a, b);
      }
      forall a | a in s'.attempts && s'.attempts[a].number > 1
        ensures HasPrevious(s', a)
      {
        assert HasPrevious(s, a);
        var b :| b in s.attempts && SameTask(s, a, b) && s.attempts[b].number == s.attempts[a].number - 1;
        assert SameTask(s', a, b);
      }
    }
  }

  predicate OnAttempt(step: Transaction) {
    step.BindExecution? || step.RejectSubmission? || step.Complete?
  }

  predicate OnTask(step: Transaction) {
    step.TerminateTask? || step.Block? || step.PrepareRetry? || step.MarkAdvanced?
  }

  predicate OnInstance(step: Transaction) {
    step.OpenTicket? || step.EndTicket? || step.Prepare? || step.Activate? || step.TryFinalize? || step.Rollback?
  }

  lemma MoveShape(s: Store, a: nat, attempt: Attempt, running: bool, status: TaskStatus)
    requires Linked(s) && Lockable(s, a)
    requires attempt.task == s.attempts[a].task && attempt.number == s.attempts[a].number
    requires attempt.request == s.attempts[a].request && !s.attempts[a].status.IsTerminal()
    requires status.Active() || attempt.status.IsTerminal()
    ensures KeepsShape(s, s.(attempts := s.attempts[a := attempt], tasks := MoveTask(s, a, running, status)))
  {
    assert AttemptOk(s, a);
  }

  lemma SameShape(s: Store, s': Store, a: nat)
    requires a in s.attempts && s'.attempts.Keys == s.attempts.Keys && s'.nextAttempt == s.nextAttempt
    requires s'.tickets == s.tickets && s'.tasks == s.tasks
    requires forall b | b in s.attempts && b != a :: s'.attempts[b] == s.attempts[b]
    requires AttemptShape(s, s', a)
    ensures KeepsShape(s, s')
  {
  }

  lemma BindShape(s: Store, a: nat, e: int)
    requires Linked(s)
    ensures KeepsShape(s, Run(s, BindExecution(a, e)))
  {
    var s' := Run(s, BindExecution(a, e));
    if Lockable(s, a) {
      if s.attempts[a].status.IsTerminal() {
        SameShape(s, s', a);
      } else {
        MoveShape(s, a, s.attempts[a].(execution := Some(e), status := AttemptStatus.Running), false, TaskStatus.Running);
        SameShape(s, s, a);
      }
    }
  }

  lemma CompleteShape(s: Store, request: string, reported: AttemptStatus)
    requires Linked(s)
    ensures KeepsShape(s, Run(s, Complete(request, reported)))
  {
    var found := WithRequest(s, request);
    if found != {} && Lockable(s, MinOf(found)) && !s.attempts[MinOf(found)].status.IsTerminal() {
      var a := MinOf(found);
      MoveShape(s, a, s.attempts[a].(status := AttemptEnd(reported)), true, TaskEnd(reported));
    }
  }

  lemma AttemptStepShape(s: Store, step: Transaction)
    requires Linked(s) && OnAttempt(step)
    ensures KeepsShape(s, Run(s, step))
  {
    match step
    case BindExecution(a, e) => BindShape(s, a, e);
    case RejectSubmission(a) =>
      if Lockable(s, a) && !s.attempts[a].status.IsTerminal() {
        MoveShape(s, a, s.attempts[a].(status := AttemptStatus.Failed), false, TaskStatus.Blocked);
      }
    case Complete(request, reported) => CompleteShape(s, request, reported);
  }

  lemma TerminateShape(s: Store, id: nat)
    requires Linked(s)
    ensures KeepsShape(s, Run(s, TerminateTask(id)))
  {
    if id in s.tasks { assert TaskOk(s, id); }
  }

  lemma TaskStepShape(s: Store, step: Transaction)
    requires Linked(s) && OnTask(step)
    ensures KeepsShape(s, Run(s, step))
  {
    if step.TerminateTask? {
      TerminateShape(s, step.id);
    } else {
      OneTaskShape(s, Run(s, step), step.id);
    }
  }

  /** Rewriting one task that neither starts nor stops executing. */
  lemma OneTaskShape(s: Store, s': Store, id: nat)
    requires s' == s.(tasks := s'.tasks) && s'.tasks.Keys == s.tasks.Keys
    requires forall t | t in s.tasks && t != id :: s'.tasks[t] == s.tasks[t]
    requires id in s.tasks ==> TaskShape(s, s', id)
    ensures KeepsShape(s, s')
  {
    forall t | t in s.tasks ensures TaskShape(s, s', t) {}
  }

  lemma InstanceStepShape(s: Store, step: Transaction)
    requires OnInstance(step)
    ensures KeepsShape(s, Run(s, step))
  {
  }

  /** Every transaction keeps a consistent state consistent. */
  lemma StepKeepsConsistent(s: Store, step: Transaction)
    requires Consistent(s)
    ensures Consistent(Run(s, step))
  {
    if step.Begin? {
      BeginKeepsConsistent(s, step.id);
    } else if step.CreateTask? {
      CreateKeepsConsistent(s, step.id, step.instance, step.node, step.compensation, step.scheduledAt, step.blocked);
    } else {
      if OnAttempt(step) { AttemptStepShape(s, step); }
      if OnTask(step) { TaskStepShape(s, step); }
      if OnInstance(step) { InstanceStepShape(s, step); }
      ShapeKeepsConsistent(s, Run(s, step));
    }
  }

  // ---------------------------------------------------------------- what no step undoes

  ghost predicate AttemptKept(s: Store, s': Store, a: nat)
    requires a in s.attempts
  {
    && a in s'.attempts
    && s'.attempts[a].task == s.attempts[a].task
    && s'.attempts[a].number == s.attempts[a].number
    && s'.attempts[a].request == s.attempts[a].request
    && (s.attempts[a].status.IsTerminal() ==> s'.attempts[a].status == s.attempts[a].status)
    && (s.attempts[a].execution.Some? ==> s'.attempts[a].execution == s.attempts[a].execution)
  }

  ghost predicate TaskKept(s: Store, s': Store, t: nat)
    requires t in s.tasks
  {
    && t in s'.tasks
    && s'.tasks[t].instance == s.tasks[t].instance
    && s'.tasks[t].node == s.tasks[t].node
    && s'.tasks[t].compensation == s.tasks[t].compensation
    && (s.tasks[t].status.Success? ==> s'.tasks[t].status.Success?)
  }

  ghost predicate HistoryKept(s: Store, s': Store) {
    && (forall a | a in s.attempts :: AttemptKept(s, s', a))
    && (forall t | t in s.tasks :: TaskKept(s, s', t))
    && (forall i | i in s.tickets && (s.tickets[i].Ended? || s.tickets[i].Withdrawn?) ::
          i in s'.tickets && s'.tickets[i] == s.tickets[i])
  }

  lemma MoveHistory(s: Store, a: nat, attempt: Attempt, running: bool, status: TaskStatus)
    requires Lockable(s, a) && !s.attempts[a].status.IsTerminal()
    requires attempt.task == s.attempts[a].task && attempt.number == s.attempts[a].number
    requires attempt.request == s.attempts[a].request
    requires s.attempts[a].execution.Some? ==> attempt.execution == s.attempts[a].execution
    ensures HistoryKept(s, s.(attempts := s.attempts[a := attempt], tasks := MoveTask(s, a, running, status)))
  {
    var s' := s.(attempts := s.attempts[a := attempt], tasks := MoveTask(s, a, running, status));
    forall b | b in s.attempts ensures AttemptKept(s, s', b) {}
    forall t | t in s.tasks ensures TaskKept(s, s', t) {}
  }

  lemma AttemptStepHistory(s: Store, step: Transaction)
    requires OnAttempt(step)
    ensures HistoryKept(s, Run(s, step))
  {
    forall b | b in s.attempts ensures AttemptKept(s, s, b) {}
    forall t | t in s.tasks ensures TaskKept(s, s, t) {}
    match step
    case BindExecution(a, e) =>
      if Lockable(s, a) && !(s.attempts[a].execution.Some? && s.attempts[a].execution.value != e) {
        if s.attempts[a].status.IsTerminal() {
          BindFinishedHistory(s, a, e);
        } else {
          MoveHistory(s, a, s.attempts[a].(execution := Some(e), status := AttemptStatus.Running), false, TaskStatus.Running);
        }
      }
    case RejectSubmission(a) =>
      if Lockable(s, a) && !s.attempts[a].status.IsTerminal() {
        MoveHistory(s, a, s.attempts[a].(status := AttemptStatus.Failed), false, TaskStatus.Blocked);
      }
    case Complete(request, reported) =>
      var found := WithRequest(s, request);
      if found != {} && Lockable(s, MinOf(found)) && !s.attempts[MinOf(found)].status.IsTerminal() {
        var a := MinOf(found);
        MoveHistory(s, a, s.attempts[a].(status := AttemptEnd(reported)), true, TaskEnd(reported));
      }
  }

  lemma BindFinishedHistory(s: Store, a: nat, e: int)
    requires a in s.attempts && s.attempts[a].status.IsTerminal()
    requires s.attempts[a].execution.Some? ==> s.attempts[a].execution.value == e
    ensures HistoryKept(s, s.(attempts := s.attempts[a := s.attempts[a].(execution := Some(e))]))
  {
    var s' := s.(attempts := s.attempts[a := s.attempts[a].(execution := Some(e))]);
    forall b | b in s.attempts ensures AttemptKept(s, s', b) {}
    forall t | t in s.tasks ensures TaskKept(s, s', t) {}
  }

  lemma TaskStepHistory(s: Store, step: Transaction)
    requires Linked(s) && (OnTask(step) || step.Begin? || step.CreateTask?)
    ensures HistoryKept(s, Run(s, step))
  {
    var s' := Run(s, step);
    assert s'.tickets == s.tickets;
    AttemptsKept(s, step);
    forall t | t in s.tasks ensures TaskKept(s, s', t) {}
  }

  lemma AttemptsKept(s: Store, step: Transaction)
    requires Linked(s) && (OnTask(step) || step.Begin? || step.CreateTask?)
    ensures forall a | a in s.attempts :: AttemptKept(s, Run(s, step), a)
  {
    forall a | a in s.attempts ensures AttemptKept(s, Run(s, step), a) {
      assert AttemptOk(s, a);
    }
  }

  lemma InstanceStepHistory(s: Store, step: Transaction)
    requires OnInstance(step)
    ensures HistoryKept(s, Run(s, step))
  {
    var s' := Run(s, step);
    assert s'.attempts == s.attempts;
    forall a | a in s.attempts ensures AttemptKept(s, s', a) {}
    forall t | t in s.tasks ensures TaskKept(s, s', t) {}
  }

  lemma StepKeepsHistory(s: Store, step: Transaction)
    requires Linked(s)
    ensures HistoryKept(s, Run(s, step))
  {
    if OnAttempt(step) {
      AttemptStepHistory(s, step);
    } else if OnInstance(step) {
      InstanceStepHistory(s, step);
    } else {
      TaskStepHistory(s, step);
    }
  }

  // ---------------------------------------------------------------- whole runs

  function RunAll(s: Store, steps: seq<Transaction>): Store
    decreases |steps|
  {
    if steps == [] then s else RunAll(Run(s, steps[0]), steps[1..])
  }

  lemma {:induction false} RunKeepsConsistent(s: Store, steps: seq<Transaction>)
    requires Consistent(s)
    ensures Consistent(RunAll(s, steps))
    decreases |steps|
  {
    if steps != [] {
      StepKeepsConsistent(s, steps[0]);
      RunKeepsConsistent(Run(s, steps[0]), steps[1..]);
    }
  }

  /** No run, however it interleaves, rewrites a finished attempt, a bound execution or a success. */
  lemma {:induction false} RunKeepsHistory(s: Store, steps: seq<Transaction>)
    requires Consistent(s)
    ensures HistoryKept(s, RunAll(s, steps))
    decreases |steps|
  {
    if steps != [] {
      var m := Run(s, steps[0]);
      StepKeepsConsistent(s, steps[0]);
      StepKeepsHistory(s, steps[0]);
      RunKeepsHistory(m, steps[1..]);
      var s' := RunAll(m, steps[1..]);
      forall a | a in s.attempts ensures AttemptKept(s, s', a) {
        assert AttemptKept(s, m, a) && AttemptKept(m, s', a);
      }
      forall t | t in s.tasks ensures TaskKept(s, s', t) {
        assert TaskKept(s, m, t) && TaskKept(m, s', t);
      }
    }
  }

  lemma EmptyConsistent()
    ensures Consistent(EMPTY)
  {
  }

  /** In every reachable state a task has at most one live attempt: its current one. */
  lemma OneLiveAttempt(steps: seq<Transaction>, a: nat, b: nat)
    requires var s := RunAll(EMPTY, steps); a in s.attempts && b in s.attempts
    requires var s := RunAll(EMPTY, steps);
      !s.attempts[a].status.IsTerminal() && !s.attempts[b].status.IsTerminal() && SameTask(s, a, b)
    ensures var s := RunAll(EMPTY, steps);
      a == b && s.attempts[a].task in s.tasks && s.tasks[s.attempts[a].task].current == a
      && s.tasks[s.attempts[a].task].status.Active()
  {
    RunKeepsConsistent(EMPTY, steps);
    var s := RunAll(EMPTY, steps);
    assert AttemptOk(s, a) && AttemptOk(s, b);
  }

  function AttemptsOf(s: Store, task: nat): set<nat> {
    set a | a in s.attempts && s.attempts[a].task == task
  }

  function NumbersOf(s: Store, task: nat): set<nat> {
    set a | a in AttemptsOf(s, task) :: s.attempts[a].number
  }

  lemma {:induction false} NumbersReachDown(s: Store, task: nat, a: nat, k: nat)
    requires Numbered(s) && a in AttemptsOf(s, task) && 1 <= k <= s.attempts[a].number
    ensures k in NumbersOf(s, task)
    decreases s.attempts[a].number
  {
    if k < s.attempts[a].number {
      assert HasPrevious(s, a);
      var b :| b in s.attempts && SameTask(s, a, b) && s.attempts[b].number == s.attempts[a].number - 1;
      NumbersReachDown(s, task, b, k);
    }
  }

  function OneTo(n: nat): (r: set<nat>)
    ensures forall k :: k in r <==> 1 <= k <= n
    ensures |r| == n
  {
    if n == 0 then {} else OneTo(n - 1) + {n}
  }

  lemma {:induction false} ImageSize(attempts: map<nat, Attempt>, ids: set<nat>)
    requires ids <= attempts.Keys
    requires forall a, b | a in ids && b in ids && a < b :: attempts[a].number < attempts[b].number
    ensures |set a | a in ids :: attempts[a].number| == |ids|
  {
    var image := set a | a in ids :: attempts[a].number;
    if ids == {} {
      assert image == {};
    } else {
      var a :| a in ids;
      var rest := ids - {a};
      ImageSize(attempts, rest);
      var below := set b | b in rest :: attempts[b].number;
      assert image == below + {attempts[a].number};
      assert attempts[a].number !in below;
    }
  }

  /** The attempts of a task are numbered 1..n in the order they were created. */
  lemma AttemptNumbers(steps: seq<Transaction>, task: nat)
    ensures var s := RunAll(EMPTY, steps); var n := |AttemptsOf(s, task)|;
      && NumbersOf(s, task) == OneTo(n)
      && LastNumber(s.attempts, task) == n
      && forall a, b | a in AttemptsOf(s, task) && b in AttemptsOf(s, task) ::
           a < b <==> s.attempts[a].number < s.attempts[b].number
  {
    RunKeepsConsistent(EMPTY, steps);
    var s := RunAll(EMPTY, steps);
    NumbersFromOne(s, task);
    forall a, b | a in AttemptsOf(s, task) && b in AttemptsOf(s, task)
      ensures a < b <==> s.attempts[a].number < s.attempts[b].number
    {
      CreationOrder(s, task, a, b);
    }
  }

  lemma NumbersFillInterval(s: Store, task: nat)
    requires Numbered(s)
    ensures NumbersOf(s, task) == OneTo(LastNumber(s.attempts, task))
  {
    var last := LastNumber(s.attempts, task);
    forall k | k in OneTo(last) ensures k in NumbersOf(s, task) {
      var a :| a in s.attempts && s.attempts[a].task == task && s.attempts[a].number == last;
      NumbersReachDown(s, task, a, k);
    }
    forall k | k in NumbersOf(s, task) ensures k in OneTo(last) {
      var a :| a in AttemptsOf(s, task) && s.attempts[a].number == k;
    }
  }

  lemma CreationOrder(s: Store, task: nat, a: nat, b: nat)
    requires Numbered(s) && a in AttemptsOf(s, task) && b in AttemptsOf(s, task)
    ensures a < b <==> s.attempts[a].number < s.attempts[b].number
  {
    assert SameTask(s, a, b) && SameTask(s, b, a);
  }

  lemma NumbersFromOne(s: Store, task: nat)
    requires Numbered(s)
    ensures var n := |AttemptsOf(s, task)|; NumbersOf(s, task) == OneTo(n) && LastNumber(s.attempts, task) == n
  {
    var ids := AttemptsOf(s, task);
    forall a, b | a in ids && b in ids && a < b ensures s.attempts[a].number < s.attempts[b].number {
      CreationOrder(s, task, a, b);
    }
    NumbersFillInterval(s, task);
    ImageSize(s.attempts, ids);
  }

  lemma RequestIsUnique(s: Store, a: nat)
    requires Numbered(s) && a in s.attempts
    ensures WithRequest(s, s.attempts[a].request) == {a}
  {
    forall b | b in WithRequest(s, s.attempts[a].request) ensures b == a {
      RequestIdInjective(s.attempts[a].task, s.attempts[a].number, s.attempts[b].task, s.attempts[b].number);
      assert SameTask(s, a, b) && SameTask(s, b, a);
    }
  }

  lemma CompletesOwn(s: Store, a: nat, reported: AttemptStatus)
    requires Numbered(s) && a in s.attempts
    ensures Run(s, Complete(s.attempts[a].request, reported)) == CompleteById(s, a, reported).store
  {
    RequestIsUnique(s, a);
  }

  /** A request identifier selects exactly one attempt, so a late event reaches only its own. */
  lemma RequestSelectsOne(steps: seq<Transaction>, a: nat)
    requires a in RunAll(EMPTY, steps).attempts
    ensures var s := RunAll(EMPTY, steps); WithRequest(s, s.attempts[a].request) == {a}
  {
    RunKeepsConsistent(EMPTY, steps);
    RequestIsUnique(RunAll(EMPTY, steps), a);
  }
}
