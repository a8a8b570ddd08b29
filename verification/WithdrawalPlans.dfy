/** Which compensation plans are harmless to apply as long as only the attempts go on. */
module WithdrawalPlans {
  import opened Prelude
  import opened AutomationModel
  import opened WithdrawalModel
  import opened Transactions
  import opened WithdrawalProtocol
  import opened WithdrawalSafety
  import opened WithdrawalTheorems

  predicate AllLocal(steps: seq<Transaction>) { forall k | 0 <= k < |steps| :: IsLocal(steps[k]) }

  /** After these attempt and task transactions, and no step of a withdrawal call, the ticket can be finalized. */
  ghost predicate Finishes(s: Store, i: int, steps: seq<Transaction>) {
    AllLocal(steps) && WithdrawalModel.TryFinalize(RunAll(s, steps), i).result == Ok(true)
  }

  /** However the attempts go on, a finalisation that completes finds the instance quiet. */
  ghost predicate Harmless(s: Store, i: int) {
    forall steps {:trigger Finishes(s, i, steps)} | Finishes(s, i, steps) ::
      Quiet(WithdrawalModel.TryFinalize(RunAll(s, steps), i).store, i)
  }

  // ---------------------------------------------------------------- a covering plan is harmless

  lemma {:induction false} StaysCovered(s: Store, i: int, steps: seq<Transaction>)
    requires Consistent(s) && HasStatus(s, i, Withdrawing) && OnlyCompensating(s, i) && AllLocal(steps)
    ensures var s' := RunAll(s, steps); Consistent(s') && HasStatus(s', i, Withdrawing) && OnlyCompensating(s', i)
    decreases |steps|
  {
    if steps != [] {
      var m := Run(s, steps[0]);
      StepKeepsConsistent(s, steps[0]);
      LocalStepFrame(s, steps[0]);
      assert TicketFrame(s, m, i);
      FrameKeepsCoverage(s, m, i, []);
      StaysCovered(m, i, steps[1..]);
    }
  }

  lemma FinalizedQuiet(s: Store, i: int)
    requires Linked(s) && HasStatus(s, i, Withdrawing) && OnlyCompensating(s, i)
    requires WithdrawalModel.TryFinalize(s, i).result == Ok(true)
    ensures Quiet(WithdrawalModel.TryFinalize(s, i).store, i)
  {
    var s' := WithdrawalModel.TryFinalize(s, i).store;
    forall t | t in s'.tasks ensures !ActiveIn(s', i, t) { assert !Unfinished(s, i, t); }
    forall t | t in s'.tasks ensures TaskOk(s', t) { assert TaskOk(s, t); }
    forall a | a in s'.attempts ensures AttemptOk(s', a) { assert AttemptOk(s, a); }
    IdleIsQuiet(s', i);
  }

  lemma CoveredIsHarmless(s: Store, i: int)
    requires Consistent(s) && HasStatus(s, i, Withdrawing) && OnlyCompensating(s, i)
    ensures Harmless(s, i)
  {
    forall steps | Finishes(s, i, steps) ensures Quiet(WithdrawalModel.TryFinalize(RunAll(s, steps), i).store, i) {
      StaysCovered(s, i, steps);
      FinalizedQuiet(RunAll(s, steps), i);
    }
  }

  // ---------------------------------------------------------------- every compensation can be brought to its end

  lemma {:induction false} RunSplit(s: Store, a: seq<Transaction>, b: seq<Transaction>)
    ensures RunAll(s, a + b) == RunAll(RunAll(s, a), b)
    decreases |a|
  {
    if a == [] {
      assert a + b == b;
    } else {
      assert (a + b)[1..] == a[1..] + b;
      RunSplit(Run(s, a[0]), a[1..], b);
    }
  }

  lemma RunMore(s: Store, steps: seq<Transaction>, step: Transaction) returns (more: seq<Transaction>)
    requires AllLocal(steps) && IsLocal(step)
    ensures more == steps + [step] && AllLocal(more) && RunAll(s, more) == Run(RunAll(s, steps), step)
  {
    more := steps + [step];
    RunSplit(s, steps, [step]);
    assert [step][1..] == [];
    assert RunAll(RunAll(s, steps), [step]) == RunAll(Run(RunAll(s, steps), step), []);
  }

  /** Nothing but the task's own row, and attempts, changed. */
  ghost predicate OnlyTask(s: Store, s': Store, t: nat) {
    && s'.tickets == s.tickets && s'.tasks.Keys == s.tasks.Keys && t in s.tasks
    && (forall u | u in s.tasks && u != t :: s'.tasks[u] == s.tasks[u])
    && s'.tasks[t].instance == s.tasks[t].instance && s'.tasks[t].kind == s.tasks[t].kind
  }

  /** A compensation of a withdrawing ticket, in the given status. */
  ghost predicate Undoes(s: Store, i: int, t: nat, status: TaskStatus) {
    && Consistent(s) && HasStatus(s, i, Withdrawing)
    && t in s.tasks && s.tasks[t].instance == i && s.tasks[t].kind.Compensation? && s.tasks[t].status == status
  }

  lemma Resets(s: Store, i: int, t: nat)
    requires t in s.tasks && Undoes(s, i, t, s.tasks[t].status) && s.tasks[t].status.CanRetry()
    ensures var s' := Run(s, Transaction.PrepareRetry(t)); Undoes(s', i, t, TaskStatus.Waiting) && OnlyTask(s, s', t)
  {
    StepKeepsConsistent(s, Transaction.PrepareRetry(t));
  }

  lemma Terminates(s: Store, t: nat)
    requires t in s.tasks && s.tasks[t].status.Active() && (s.tasks[t].current == 0 || s.tasks[t].current in s.attempts)
    ensures var s' := Run(s, Transaction.TerminateTask(t)); OnlyTask(s, s', t) && s'.tasks[t].status.Cancelled?
  {
  }

  lemma Ends(s: Store, i: int, t: nat)
    requires t in s.tasks && Undoes(s, i, t, s.tasks[t].status) && s.tasks[t].status.Active()
    ensures var s' := Run(s, Transaction.TerminateTask(t)); Undoes(s', i, t, TaskStatus.Cancelled) && OnlyTask(s, s', t)
  {
    assert TaskOk(s, t);
    Terminates(s, t);
    StillConsistent(s, Run(s, Transaction.TerminateTask(t)), Transaction.TerminateTask(t));
  }

  ghost predicate LiveOn(s: Store, t: nat) {
    t in s.tasks && s.tasks[t].current in s.attempts && s.attempts[s.tasks[t].current].task == t
    && !s.attempts[s.tasks[t].current].status.IsTerminal()
  }

  lemma Starts(s: Store, i: int, t: nat)
    requires Undoes(s, i, t, TaskStatus.Waiting)
    ensures var s' := Run(s, Transaction.Begin(t));
      Undoes(s', i, t, TaskStatus.Submitting) && OnlyTask(s, s', t) && LiveOn(s', t)
  {
    StepKeepsConsistent(s, Transaction.Begin(t));
  }

  lemma Completes(s: Store, a: nat, t: nat)
    requires t in s.tasks && a == s.tasks[t].current && LiveOn(s, t) && s.tasks[t].status.Active()
    ensures var s' := CompleteById(s, a, AttemptStatus.Success).store; OnlyTask(s, s', t) && s'.tasks[t].status.Success?
  {
  }

  lemma Succeeds(s: Store, i: int, t: nat)
    requires t in s.tasks && Undoes(s, i, t, s.tasks[t].status) && s.tasks[t].status.Active() && LiveOn(s, t)
    ensures var s' := Run(s, Transaction.Complete(s.attempts[s.tasks[t].current].request, AttemptStatus.Success));
      Undoes(s', i, t, TaskStatus.Success) && OnlyTask(s, s', t)
  {
    var a := s.tasks[t].current;
    var tx := Transaction.Complete(s.attempts[a].request, AttemptStatus.Success);
    CompletesOwn(s, a, AttemptStatus.Success);
    Completes(s, a, t);
    StillConsistent(s, Run(s, tx), tx);
  }

  lemma RunAndSucceed(s: Store, i: int, t: nat, before: seq<Transaction>) returns (steps: seq<Transaction>)
    requires AllLocal(before) && OnlyTask(s, RunAll(s, before), t) && Undoes(RunAll(s, before), i, t, TaskStatus.Waiting)
    ensures AllLocal(steps) && OnlyTask(s, RunAll(s, steps), t) && Undoes(RunAll(s, steps), i, t, TaskStatus.Success)
  {
    Starts(RunAll(s, before), i, t);
    steps := RunMore(s, before, Transaction.Begin(t));
    var m := RunAll(s, steps);
    Succeeds(m, i, t);
    steps := RunMore(s, steps, Transaction.Complete(m.attempts[m.tasks[t].current].request, AttemptStatus.Success));
  }

  lemma ResetAndSucceed(s: Store, i: int, t: nat, before: seq<Transaction>) returns (steps: seq<Transaction>)
    requires AllLocal(before) && OnlyTask(s, RunAll(s, before), t)
    requires var m := RunAll(s, before); Undoes(m, i, t, m.tasks[t].status) && m.tasks[t].status.CanRetry()
    ensures AllLocal(steps) && OnlyTask(s, RunAll(s, steps), t) && Undoes(RunAll(s, steps), i, t, TaskStatus.Success)
  {
    Resets(RunAll(s, before), i, t);
    steps := RunMore(s, before, Transaction.PrepareRetry(t));
    steps := RunAndSucceed(s, i, t, steps);
  }

  /** Whatever stands in its way, an unfinished compensation can be brought to success without touching any other
      task. */
  lemma FinishOne(s: Store, i: int, t: nat) returns (steps: seq<Transaction>)
    requires Consistent(s) && HasStatus(s, i, Withdrawing) && Unfinished(s, i, t)
    ensures AllLocal(steps) && OnlyTask(s, RunAll(s, steps), t) && Undoes(RunAll(s, steps), i, t, TaskStatus.Success)
  {
    assert TaskOk(s, t);
    assert RunAll(s, []) == s;
    var status := s.tasks[t].status;
    if status.Waiting? {
      steps := RunAndSucceed(s, i, t, []);
    } else if status.CanRetry() {
      steps := ResetAndSucceed(s, i, t, []);
    } else if LiveOn(s, t) {
      Succeeds(s, i, t);
      steps := RunMore(s, [], Transaction.Complete(s.attempts[s.tasks[t].current].request, AttemptStatus.Success));
    } else {
      Ends(s, i, t);
      steps := RunMore(s, [], Transaction.TerminateTask(t));
      steps := ResetAndSucceed(s, i, t, steps);
    }
  }

  function UnfinishedOf(s: Store, i: int): set<nat> { set t | t in s.tasks && Unfinished(s, i, t) }

  lemma OneLess(s: Store, s': Store, i: int, t: nat)
    requires Unfinished(s, i, t) && OnlyTask(s, s', t) && s'.tasks[t].status.Success?
    ensures UnfinishedOf(s', i) == UnfinishedOf(s, i) - {t}
  {
    forall u | u in s.tasks && u != t ensures Unfinished(s', i, u) <==> Unfinished(s, i, u) {}
  }

  /** Every task of the first state that is not an unfinished compensation of the instance is as it was. */
  ghost predicate OthersKept(s: Store, s': Store, i: int) {
    forall u | u in s.tasks && !Unfinished(s, i, u) :: u in s'.tasks && s'.tasks[u] == s.tasks[u]
  }

  lemma OthersKeptOn(s: Store, m: Store, s': Store, i: int, t: nat)
    requires Unfinished(s, i, t) && OnlyTask(s, m, t) && m.tasks[t].status.Success? && OthersKept(m, s', i)
    ensures OthersKept(s, s', i)
  {
    OneLess(s, m, i, t);
    forall u | u in s.tasks && !Unfinished(s, i, u) ensures u in s'.tasks && s'.tasks[u] == s.tasks[u] {
      assert u !in UnfinishedOf(s, i);
      assert !Unfinished(m, i, u) && m.tasks[u] == s.tasks[u];
    }
  }

  /** All unfinished compensations of an instance can be brought to success, every other task staying as it is. */
  lemma {:induction false} FinishAll(s: Store, i: int) returns (steps: seq<Transaction>)
    requires Consistent(s) && HasStatus(s, i, Withdrawing)
    ensures AllLocal(steps) && HasStatus(RunAll(s, steps), i, Withdrawing) && UnfinishedOf(RunAll(s, steps), i) == {}
    ensures OthersKept(s, RunAll(s, steps), i)
    decreases |UnfinishedOf(s, i)|
  {
    if UnfinishedOf(s, i) == {} {
      steps := [];
    } else {
      var t :| t in UnfinishedOf(s, i);
      var first := FinishOne(s, i, t);
      var m := RunAll(s, first);
      OneLess(s, m, i, t);
      var rest := FinishAll(m, i);
      steps := first + rest;
      RunSplit(s, first, rest);
      OthersKeptOn(s, m, RunAll(m, rest), i, t);
    }
  }

  lemma UncoveredIsHarmful(s: Store, i: int, t: nat)
    requires Consistent(s) && HasStatus(s, i, Withdrawing)
    requires t in s.tasks && ActiveIn(s, i, t) && s.tasks[t].kind.Process?
    ensures !Harmless(s, i)
  {
    var steps := FinishAll(s, i);
    var s' := RunAll(s, steps);
    forall u | u in s'.tasks ensures !Unfinished(s', i, u) { assert u !in UnfinishedOf(s', i); }
    assert Finishes(s, i, steps);
    assert ActiveIn(WithdrawalModel.TryFinalize(s', i).store, i, t);
  }

  lemma HarmlessByKind(s: Store, i: int)
    requires Consistent(s) && HasStatus(s, i, Withdrawing)
    ensures Harmless(s, i) <==> OnlyCompensating(s, i)
  {
    if OnlyCompensating(s, i) {
      CoveredIsHarmless(s, i);
    } else {
      var t :| t in s.tasks && ActiveIn(s, i, t) && !s.tasks[t].kind.Compensation?;
      UncoveredIsHarmful(s, i, t);
    }
  }

  lemma TicketsUntouched(s: Store, i: int, plan: seq<string>, now: int)
    ensures ActivateCompensations(s, i, plan, now).store.tickets == s.tickets
    ensures ActivateCompensations(s, i, plan, now).store == Run(s, Transaction.Activate(i, plan, now))
  {
  }

  lemma StillConsistent(s: Store, s': Store, step: Transaction)
    requires Consistent(s) && s' == Run(s, step)
    ensures Consistent(s')
  {
    StepKeepsConsistent(s, step);
  }

  lemma StillWithdrawing(s: Store, i: int, plan: seq<string>, now: int)
    requires Consistent(s) && HasStatus(s, i, Withdrawing)
    ensures var s' := ActivateCompensations(s, i, plan, now).store; Consistent(s') && HasStatus(s', i, Withdrawing)
  {
    TicketsUntouched(s, i, plan, now);
    StillConsistent(s, ActivateCompensations(s, i, plan, now).store, Transaction.Activate(i, plan, now));
  }

  /** As far as attempts and tasks go on by themselves, applying a plan is harmless if and only if it names the node of
      every ordinary task that executes at that moment. Steps of other withdrawal calls are not among the
      continuations here; `WithdrawalRevocation` ranges over those too. */
  lemma PlanHarmlessExactly(s: Store, i: int, plan: seq<string>, now: int)
    requires Consistent(s) && HasStatus(s, i, Withdrawing)
    ensures Harmless(ActivateCompensations(s, i, plan, now).store, i) <==> PlanCovers(s, i, plan)
  {
    StillWithdrawing(s, i, plan, now);
    ActivationCovers(s, i, plan, now);
    HarmlessByKind(ActivateCompensations(s, i, plan, now).store, i);
  }
}
