/** Task rows and attempt rows agree, provided etask answers each request identifier always alike. */
module EtaskSync {
  import opened Prelude
  import opened AutomationModel
  import opened Transactions

  /** etask's answer to a request identifier: it runs the execution, or it never will. */
  datatype Verdict = Accepted(execution: int) | Rejected

  /** The submission protocol binds only accepted requests and rejects only rejected ones. */
  ghost predicate Faithful(etask: string -> Verdict, s: Store, step: Transaction) {
    && (step.BindExecution? && step.id in s.attempts ==>
          etask(s.attempts[step.id].request) == Accepted(step.execution))
    && (step.RejectSubmission? && step.id in s.attempts ==>
          etask(s.attempts[step.id].request).Rejected?)
  }

  ghost predicate FaithfulRun(etask: string -> Verdict, s: Store, steps: seq<Transaction>)
    decreases |steps|
  {
    steps == [] || (Faithful(etask, s, steps[0]) && FaithfulRun(etask, Run(s, steps[0]), steps[1..]))
  }

  ghost predicate CurrentIs(s: Store, t: nat, status: AttemptStatus)
    requires t in s.tasks
  {
    var a := s.tasks[t].current;
    a != 0 && a in s.attempts && s.attempts[a].status == status
  }

  ghost predicate TaskMatches(s: Store, t: nat)
    requires t in s.tasks
  {
    match s.tasks[t].status
    case Submitting => CurrentIs(s, t, AttemptStatus.Submitting)
    case Running => CurrentIs(s, t, AttemptStatus.Running)
    case Success => CurrentIs(s, t, AttemptStatus.Success)
    case Failed => CurrentIs(s, t, AttemptStatus.Failed)
    case _ => !CurrentIs(s, t, AttemptStatus.Success)
  }

  ghost predicate BoundByVerdict(etask: string -> Verdict, s: Store, a: nat)
    requires a in s.attempts
  {
    s.attempts[a].status.Running? ==>
      s.attempts[a].execution.Some? && etask(s.attempts[a].request) == Accepted(s.attempts[a].execution.value)
  }

  ghost predicate AllMatch(s: Store) {
    forall t | t in s.tasks :: TaskMatches(s, t)
  }

  ghost predicate InSync(etask: string -> Verdict, s: Store) {
    AllMatch(s) && forall a | a in s.attempts :: BoundByVerdict(etask, s, a)
  }

  /** Finishing or binding a live attempt moves its task along with it. */
  lemma MoveKeepsSync(etask: string -> Verdict, s: Store, a: nat, attempt: Attempt, running: bool, status: TaskStatus)
    requires Linked(s) && InSync(etask, s) && Lockable(s, a) && !s.attempts[a].status.IsTerminal()
    requires attempt.task == s.attempts[a].task && attempt.request == s.attempts[a].request
    requires attempt.status.Running? ==>
      attempt.execution.Some? && etask(attempt.request) == Accepted(attempt.execution.value)
    requires status.Submitting? ==> attempt.status.Submitting?
    requires status.Running? <==> attempt.status.Running?
    requires status.Success? <==> attempt.status.Success?
    requires status.Failed? ==> attempt.status.Failed?
    requires running || attempt.status.Running? || s.attempts[a].status.Submitting?
    ensures InSync(etask, s.(attempts := s.attempts[a := attempt], tasks := MoveTask(s, a, running, status)))
  {
    var s' := s.(attempts := s.attempts[a := attempt], tasks := MoveTask(s, a, running, status));
    assert AttemptOk(s, a);
    forall t | t in s'.tasks ensures TaskMatches(s', t) {
      assert TaskMatches(s, t) && TaskOk(s, t);
    }
    forall b | b in s'.attempts ensures BoundByVerdict(etask, s', b) {
      assert BoundByVerdict(etask, s, b);
    }
  }

  lemma AttemptStepKeepsSync(etask: string -> Verdict, s: Store, step: Transaction)
    requires Linked(s) && InSync(etask, s) && OnAttempt(step) && Faithful(etask, s, step)
    ensures InSync(etask, Run(s, step))
  {
    match step
    case BindExecution(a, e) =>
      if Lockable(s, a) && !(s.attempts[a].execution.Some? && s.attempts[a].execution.value != e) {
        if s.attempts[a].status.IsTerminal() {
          FinishedBindKeepsSync(etask, s, a, e);
        } else {
          MoveKeepsSync(etask, s, a, s.attempts[a].(execution := Some(e), status := AttemptStatus.Running),
                        false, TaskStatus.Running);
        }
      }
    case RejectSubmission(a) =>
      if Lockable(s, a) && !s.attempts[a].status.IsTerminal() {
        assert BoundByVerdict(etask, s, a);
        MoveKeepsSync(etask, s, a, s.attempts[a].(status := AttemptStatus.Failed), false, TaskStatus.Blocked);
      }
    case Complete(request, reported) =>
      var found := WithRequest(s, request);
      if found != {} && Lockable(s, MinOf(found)) && !s.attempts[MinOf(found)].status.IsTerminal() {
        var a := MinOf(found);
        MoveKeepsSync(etask, s, a, s.attempts[a].(status := AttemptEnd(reported)), true, TaskEnd(reported));
      }
  }

  lemma FinishedBindKeepsSync(etask: string -> Verdict, s: Store, a: nat, e: int)
    requires InSync(etask, s) && a in s.attempts && s.attempts[a].status.IsTerminal()
    ensures InSync(etask, s.(attempts := s.attempts[a := s.attempts[a].(execution := Some(e))]))
  {
    var s' := s.(attempts := s.attempts[a := s.attempts[a].(execution := Some(e))]);
    forall t | t in s'.tasks ensures TaskMatches(s', t) {
      assert TaskMatches(s, t);
    }
    forall b | b in s'.attempts ensures BoundByVerdict(etask, s', b) {
      assert BoundByVerdict(etask, s, b);
    }
  }

  ghost predicate KeepsOrEnds(s: Store, s': Store, t: nat)
    requires t in s.tasks && t in s'.tasks && s.tasks[t].current in s.attempts && s.tasks[t].current in s'.attempts
  {
    var a := s.tasks[t].current;
    s'.attempts[a].status == s.attempts[a].status || (s'.tasks[t].status.Cancelled? && !s'.attempts[a].status.Success?)
  }

  /** A row keeps the match if its status stays, or it is set aside without having succeeded. */
  lemma RowKeepsMatch(s: Store, s': Store, t: nat)
    requires t in s.tasks && t in s'.tasks && TaskMatches(s, t) && s'.tasks[t].current == s.tasks[t].current
    requires s'.tasks[t].status == s.tasks[t].status ||
      (!s.tasks[t].status.Success? && (s'.tasks[t].status.Waiting? || s'.tasks[t].status.Blocked? || s'.tasks[t].status.Cancelled?))
    requires s.tasks[t].current in s.attempts <==> s.tasks[t].current in s'.attempts
    requires s.tasks[t].current in s.attempts ==> KeepsOrEnds(s, s', t)
    ensures TaskMatches(s', t)
  {
  }

  lemma InstanceStepKeepsSync(etask: string -> Verdict, s: Store, step: Transaction)
    requires InSync(etask, s) && OnInstance(step)
    ensures InSync(etask, Run(s, step))
  {
    var s' := Run(s, step);
    assert s'.attempts == s.attempts;
    forall t | t in s'.tasks ensures TaskMatches(s', t) { RowKeepsMatch(s, s', t); }
    forall b | b in s'.attempts ensures BoundByVerdict(etask, s', b) { assert BoundByVerdict(etask, s, b); }
  }

  lemma TerminateKeepsSync(etask: string -> Verdict, s: Store, id: nat)
    requires Linked(s) && InSync(etask, s)
    ensures InSync(etask, Run(s, TerminateTask(id)))
  {
    var s' := Run(s, TerminateTask(id));
    if id in s.tasks { assert TaskOk(s, id); }
    forall t | t in s'.tasks ensures TaskMatches(s', t) {
      assert TaskOk(s, t);
      RowKeepsMatch(s, s', t);
    }
    forall b | b in s'.attempts ensures BoundByVerdict(etask, s', b) { assert BoundByVerdict(etask, s, b); }
  }

  lemma BeginKeepsSync(etask: string -> Verdict, s: Store, id: nat)
    requires Linked(s) && InSync(etask, s)
    ensures InSync(etask, Run(s, Begin(id)))
  {
    var s' := Run(s, Begin(id));
    forall t | t in s'.tasks ensures TaskMatches(s', t) { assert TaskMatches(s, t) && TaskOk(s, t); }
    forall b | b in s'.attempts ensures BoundByVerdict(etask, s', b) {
      if b in s.attempts { assert BoundByVerdict(etask, s, b) && AttemptOk(s, b); }
    }
  }

  lemma TaskStepKeepsSync(etask: string -> Verdict, s: Store, step: Transaction)
    requires Linked(s) && InSync(etask, s) && (OnTask(step) || step.CreateTask?) && !step.TerminateTask?
    ensures InSync(etask, Run(s, step))
  {
    var s' := Run(s, step);
    assert s'.attempts == s.attempts;
    forall t | t in s'.tasks ensures TaskMatches(s', t) {
      if t in s.tasks { RowKeepsMatch(s, s', t); }
    }
    forall b | b in s'.attempts ensures BoundByVerdict(etask, s', b) { assert BoundByVerdict(etask, s, b); }
  }

  lemma StepKeepsSync(etask: string -> Verdict, s: Store, step: Transaction)
    requires Linked(s) && InSync(etask, s) && Faithful(etask, s, step)
    ensures InSync(etask, Run(s, step))
  {
    if OnAttempt(step) {
      AttemptStepKeepsSync(etask, s, step);
    } else if OnInstance(step) {
      InstanceStepKeepsSync(etask, s, step);
    } else if step.TerminateTask? {
      TerminateKeepsSync(etask, s, step.id);
    } else if step.Begin? {
      BeginKeepsSync(etask, s, step.id);
    } else {
      TaskStepKeepsSync(etask, s, step);
    }
  }

  lemma {:induction false} RunKeepsSync(etask: string -> Verdict, s: Store, steps: seq<Transaction>)
    requires Consistent(s) && InSync(etask, s) && FaithfulRun(etask, s, steps)
    ensures Consistent(RunAll(s, steps)) && InSync(etask, RunAll(s, steps))
    decreases |steps|
  {
    if steps != [] {
      StepKeepsConsistent(s, steps[0]);
      StepKeepsSync(etask, s, steps[0]);
      RunKeepsSync(etask, Run(s, steps[0]), steps[1..]);
    }
  }

  /** In every state a faithful run reaches, a task is submitting, running or a success exactly when its
      current attempt is, a running attempt is bound to the execution etask accepted, a failure is the current
      attempt's, and the current attempt of a cancelled task has ended without success. */
  lemma TaskFollowsAttempt(etask: string -> Verdict, steps: seq<Transaction>, t: nat)
    requires FaithfulRun(etask, EMPTY, steps) && t in RunAll(EMPTY, steps).tasks
    ensures var s := RunAll(EMPTY, steps);
      && (s.tasks[t].status.Submitting? <==> CurrentIs(s, t, AttemptStatus.Submitting))
      && (s.tasks[t].status.Running? <==> CurrentIs(s, t, AttemptStatus.Running))
      && (s.tasks[t].status.Success? <==> CurrentIs(s, t, AttemptStatus.Success))
      && (s.tasks[t].status.Failed? ==> CurrentIs(s, t, AttemptStatus.Failed))
      && (s.tasks[t].status.Cancelled? && s.tasks[t].current > 0 ==>
            CurrentIs(s, t, AttemptStatus.Failed) || CurrentIs(s, t, AttemptStatus.Cancelled))
      && (s.tasks[t].status.Running? ==>
            var a := s.attempts[s.tasks[t].current]; a.execution.Some? && etask(a.request) == Accepted(a.execution.value))
  {
    RunKeepsSync(etask, EMPTY, steps);
    var s := RunAll(EMPTY, steps);
    assert TaskMatches(s, t) && TaskOk(s, t);
    if s.tasks[t].current in s.attempts {
      assert AttemptOk(s, s.tasks[t].current) && BoundByVerdict(etask, s, s.tasks[t].current);
    }
  }

  /** Without a stable verdict the match can break, and it breaks exactly when a submission is
      rejected after its attempt was already bound. */
  lemma RejectKeepsMatchExactly(s: Store, a: nat)
    requires Linked(s) && AllMatch(s) && Lockable(s, a) && !s.attempts[a].status.IsTerminal()
    ensures AllMatch(AutomationModel.RejectSubmission(s, a).store) <==> !s.attempts[a].status.Running?
  {
    var s' := AutomationModel.RejectSubmission(s, a).store;
    var t := s.attempts[a].task;
    assert AttemptOk(s, a) && TaskMatches(s, t);
    if s.attempts[a].status.Running? {
      assert s'.tasks[t].status.Running? && !TaskMatches(s', t);
    } else {
      forall u | u in s'.tasks ensures TaskMatches(s', u) {
        assert TaskMatches(s, u) && TaskOk(s, u);
      }
    }
  }

  // ---------------------------------------------------------------- and how it breaks

  /** A submission that is accepted and later rejected all the same. */
  function BoundThenRejected(execution: int): seq<Transaction> {
    [OpenTicket(1), CreateTask(1, 1, "deploy", "", 0, false), Begin(1), BindExecution(1, execution), RejectSubmission(1)]
  }

  function OneTask(task: TaskStatus, current: nat, attempts: map<nat, Attempt>, nextAttempt: nat): Store {
    Store(map[1 := Processing], map[1 := Task(1, "deploy", "", task, Process, current, 0, 0, 0)], attempts, nextAttempt)
  }

  function OneAttempt(execution: Option<int>, status: AttemptStatus): map<nat, Attempt> {
    map[1 := Attempt(1, 1, RequestId(1, 1), execution, status)]
  }

  lemma FirstBegins()
    ensures Run(OneTask(Waiting, 0, map[], 1), Begin(1)) ==
      OneTask(TaskStatus.Submitting, 1, OneAttempt(None, AttemptStatus.Submitting), 2)
  {
    assert LastNumber(OneTask(Waiting, 0, map[], 1).attempts, 1) == 0;
  }

  lemma RunFive(s: Store, steps: seq<Transaction>)
    requires |steps| == 5
    ensures RunAll(s, steps) == Run(Run(Run(Run(Run(s, steps[0]), steps[1]), steps[2]), steps[3]), steps[4])
  {
    var a, b := steps[1..], steps[2..];
    var c, d := steps[3..], steps[4..];
    assert a[1..] == b && b[1..] == c && c[1..] == d && d[1..] == [];
    var s1 := Run(s, steps[0]);
    var s2 := Run(s1, steps[1]);
    var s3 := Run(s2, steps[2]);
    var s4 := Run(s3, steps[3]);
    assert RunAll(s, steps) == RunAll(s1, a) && RunAll(s1, a) == RunAll(s2, b) && RunAll(s2, b) == RunAll(s3, c);
    assert RunAll(s3, c) == RunAll(s4, d) && RunAll(s4, d) == RunAll(Run(s4, steps[4]), []);
  }

  /** A run from the empty tables after which the rows do not match: the task runs, its current attempt has failed. */
  lemma RejectionMayBreakMatch(execution: int)
    ensures var s := RunAll(EMPTY, BoundThenRejected(execution));
      !AllMatch(s) && 1 in s.tasks && s.tasks[1].status.Running? && CurrentIs(s, 1, AttemptStatus.Failed)
  {
    var steps := BoundThenRejected(execution);
    var s2 := Run(Run(EMPTY, steps[0]), steps[1]);
    assert s2 == OneTask(Waiting, 0, map[], 1);
    FirstBegins();
    var s4 := Run(Run(s2, steps[2]), steps[3]);
    assert s4 == OneTask(TaskStatus.Running, 1, OneAttempt(Some(execution), AttemptStatus.Running), 2);
    var s := Run(s4, steps[4]);
    assert s == OneTask(TaskStatus.Running, 1, OneAttempt(Some(execution), AttemptStatus.Failed), 2);
    RunFive(EMPTY, steps);
    assert !TaskMatches(s, 1);
  }
}
