/** When revoking the engine is safe, over everything that may follow. */
module WithdrawalRevocation {
  import opened Prelude
  import opened AutomationModel
  import opened WithdrawalModel
  import opened Transactions
  import opened WithdrawalProtocol
  import opened WithdrawalSafety
  import opened WithdrawalTheorems
  import opened WithdrawalPlans

  /** Call `f` withdraws instance `i` and has not revoked the engine. */
  predicate EarlyIn(sys: Sys, i: int, f: nat) {
    f in sys.flows && sys.flows[f].instance == i && sys.flows[f].stage.Early()
  }

  // ---------------------------------------------------------------- a prepared withdrawal has its call

  /** An early call of the latest withdrawal of the instance. */
  predicate Current(sys: Sys, i: int, f: nat) {
    EarlyIn(sys, i, f) && sys.flows[f].round == Round(sys, i)
  }

  ghost predicate Open(sys: Sys, i: int) { exists f :: Current(sys, i, f) }

  /** Until the engine is revoked, the call that prepared a withdrawing ticket is still on its way. */
  ghost predicate RoundOpen(sys: Sys) {
    forall i {:trigger Open(sys, i)} | HasStatus(sys.db, i, Withdrawing) && i !in sys.revoked :: Open(sys, i)
  }

  lemma StaysOpen(sys: Sys, e: Event, i: int, f: nat)
    requires Current(sys, i, f) && !e.PrepareWithdrawal?
    requires HasStatus(Next(sys, e).db, i, Withdrawing) && i !in Next(sys, e).revoked
    ensures Current(Next(sys, e), i, f)
  {
  }

  lemma WasWithdrawing(sys: Sys, e: Event, i: int)
    requires !e.PrepareWithdrawal?
    requires HasStatus(Next(sys, e).db, i, Withdrawing) && i !in Next(sys, e).revoked
    ensures HasStatus(sys.db, i, Withdrawing) && i !in sys.revoked
  {
    EventIsTransaction(sys, e);
    if TransactionOf(sys, e).Some? && IsLocal(TransactionOf(sys, e).value) {
      LocalStepFrame(sys.db, TransactionOf(sys, e).value);
      assert TicketFrame(sys.db, Next(sys, e).db, i);
    }
  }

  lemma PrepareOpens(sys: Sys, f: nat, i: int)
    requires RoundOpen(sys)
    ensures RoundOpen(Next(sys, PrepareWithdrawal(f, i)))
  {
    var sys' := Next(sys, PrepareWithdrawal(f, i));
    forall j | HasStatus(sys'.db, j, Withdrawing) && j !in sys'.revoked ensures Open(sys', j) {
      if sys' != sys && j == i {
        assert Current(sys', i, f);
      } else {
        assert Open(sys, j);
        var g :| Current(sys, j, g);
        assert Current(sys', j, g);
      }
    }
  }

  /** Every event, disciplined or not, keeps this. */
  lemma NextKeepsOpen(sys: Sys, e: Event)
    requires RoundOpen(sys)
    ensures RoundOpen(Next(sys, e))
  {
    if e.PrepareWithdrawal? {
      PrepareOpens(sys, e.flow, e.instance);
    } else {
      var sys' := Next(sys, e);
      forall i | HasStatus(sys'.db, i, Withdrawing) && i !in sys'.revoked ensures Open(sys', i) {
        WasWithdrawing(sys, e, i);
        assert Open(sys, i);
        var f :| Current(sys, i, f);
        StaysOpen(sys, e, i, f);
      }
    }
  }

  lemma {:induction false} PlayKeepsOpen(sys: Sys, events: seq<Event>)
    requires RoundOpen(sys)
    ensures RoundOpen(Play(sys, events))
    decreases |events|
  {
    if events != [] {
      NextKeepsOpen(sys, events[0]);
      PlayKeepsOpen(Next(sys, events[0]), events[1..]);
    }
  }

  // ---------------------------------------------------------------- a revocation by the only call

  ghost predicate Idle(s: Store, i: int) { forall t | t in s.tasks :: !ActiveIn(s, i, t) }

  predicate Compensating(s: Store, i: int) {
    exists t :: t in s.tasks && s.tasks[t].instance == i && s.tasks[t].kind.Compensation?
  }

  ghost predicate TasksSettled(s: Store, i: int) {
    && (HasStatus(s, i, Withdrawing) || HasStatus(s, i, Withdrawn))
    && (HasStatus(s, i, Withdrawing) ==> ActiveCovered(s, i))
    && (HasStatus(s, i, Withdrawn) ==> Idle(s, i))
    && (Compensating(s, i) ==> OnlyCompensating(s, i))
  }

  ghost predicate FlowSettled(s: Store, flow: Flow) {
    && !flow.stage.Early()
    && (flow.stage.Applying? ==> PlanCovers(s, flow.instance, flow.plan))
    && (flow.stage.Finalizing? ==> OnlyCompensating(s, flow.instance))
  }

  /** The engine is revoked and every call of the instance, whatever its round, may go on. */
  ghost predicate Settled(sys: Sys, i: int) {
    && Consistent(sys.db) && i in sys.revoked && TasksSettled(sys.db, i)
    && (forall f | f in sys.flows && sys.flows[f].instance == i :: FlowSettled(sys.db, sys.flows[f]))
  }

  lemma FrameSettles(s: Store, s': Store, i: int)
    requires LocalFrame(s, s') && TasksSettled(s, i)
    ensures TasksSettled(s', i)
    ensures forall flow: Flow {:trigger FlowSettled(s', flow)} | flow.instance == i && FlowSettled(s, flow) :: FlowSettled(s', flow)
  {
    assert TicketFrame(s, s', i);
    FrameKeepsCoverage(s, s', i, []);
    forall flow: Flow | flow.instance == i && FlowSettled(s, flow) ensures FlowSettled(s', flow) {
      FrameKeepsCoverage(s, s', i, flow.plan);
    }
    if HasStatus(s', i, Withdrawn) {
      forall t | t in s'.tasks ensures !ActiveIn(s', i, t) {
        if t in s.tasks { assert TaskFrame(s, s', t) && !ActiveIn(s, i, t); }
      }
    }
    if Compensating(s', i) {
      var t :| t in s'.tasks && s'.tasks[t].instance == i && s'.tasks[t].kind.Compensation?;
      assert t in s.tasks && TaskFrame(s, s', t);
    }
  }

  lemma ElsewhereSettles(s: Store, s': Store, j: int, i: int)
    requires SameElsewhere(s, s', j) && j != i && TasksSettled(s, i)
    ensures TasksSettled(s', i)
    ensures forall flow: Flow {:trigger FlowSettled(s', flow)} | flow.instance == i && FlowSettled(s, flow) :: FlowSettled(s', flow)
  {
    ElsewhereKeepsCoverage(s, s', j, i, []);
    forall flow: Flow | flow.instance == i && FlowSettled(s, flow) ensures FlowSettled(s', flow) {
      ElsewhereKeepsCoverage(s, s', j, i, flow.plan);
    }
    forall t | t in s'.tasks && s'.tasks[t].instance == i ensures s'.tasks[t] == s.tasks[t] {}
  }

  lemma LocalSettles(sys: Sys, step: Transaction, i: int)
    requires Settled(sys, i) && IsLocal(step)
    ensures Settled(sys.(db := Run(sys.db, step)), i)
  {
    LocalStepFrame(sys.db, step);
    StepKeepsConsistent(sys.db, step);
    FrameSettles(sys.db, Run(sys.db, step), i);
  }

  predicate OnWithdrawal(step: Transaction) { step.Prepare? || step.Activate? || step.TryFinalize? || step.Rollback? }

  lemma WithdrawalStaysInside(s: Store, step: Transaction)
    requires OnWithdrawal(step)
    ensures SameElsewhere(s, Run(s, step), step.instance)
  {
    match step
    case Prepare(i) =>
    case Activate(i, nodes, now) =>
    case TryFinalize(i) =>
    case Rollback(i) =>
  }

  /** A transaction of another instance's withdrawal. */
  lemma OtherSettles(sys: Sys, step: Transaction, i: int, db: Store)
    requires Settled(sys, i) && OnWithdrawal(step) && step.instance != i && db == Run(sys.db, step)
    ensures Settled(sys.(db := db), i)
  {
    WithdrawalStaysInside(sys.db, step);
    StillConsistent(sys.db, db, step);
    ElsewhereSettles(sys.db, db, step.instance, i);
  }

  /** Only flows, and what the protocol notes beside the database, changed. */
  lemma FlowSettles(sys: Sys, sys': Sys, i: int, f: nat, flow: Flow)
    requires Settled(sys, i) && sys'.db == sys.db && sys.revoked <= sys'.revoked
    requires sys'.flows == sys.flows[f := flow]
    requires flow.instance == i ==> FlowSettled(sys.db, flow)
    ensures Settled(sys', i)
  {
  }

  lemma BuildSettles(sys: Sys, f: nat, order: seq<nat>, i: int)
    requires Settled(sys, i)
    ensures Settled(Next(sys, BuildPlan(f, order)), i)
  {
    var sys' := Next(sys, BuildPlan(f, order));
    if sys' != sys {
      var plan := sys'.flows[f].plan;
      if sys.flows[f].instance == i {
        forall t | t in sys.db.tasks && ActiveIn(sys.db, i, t) && sys.db.tasks[t].kind.Process?
          ensures sys.db.tasks[t].node in plan
        {
          assert TaskOk(sys.db, t);
          PlanIsCoverage(sys.db, i, order, sys.db.tasks[t].node);
        }
        assert PlanCovers(sys.db, i, plan);
      }
      FlowSettles(sys, sys', i, f, sys'.flows[f]);
    }
  }

  lemma FailSettles(sys: Sys, f: nat, i: int)
    requires Settled(sys, i)
    ensures Settled(Next(sys, FailPlan(f)), i)
  {
    var sys' := Next(sys, FailPlan(f));
    if sys' != sys { FlowSettles(sys, sys', i, f, sys'.flows[f]); }
  }

  lemma RevokeSettles(sys: Sys, f: nat, fails: bool, i: int)
    requires Settled(sys, i)
    ensures Settled(Next(sys, RevokeEngine(f, fails)), i)
  {
    var sys' := Next(sys, RevokeEngine(f, fails));
    if sys' != sys { FlowSettles(sys, sys', i, f, sys'.flows[f]); }
  }

  lemma BeginSettles(sys: Sys, e: Event, i: int)
    requires Settled(sys, i) && (e.Recover? || e.ObserveCompletion?)
    ensures Settled(Next(sys, e), i)
  {
    var sys' := Next(sys, e);
    if sys' != sys { FlowSettles(sys, sys', i, e.flow, sys'.flows[e.flow]); }
  }

  lemma CreateSettles(sys: Sys, f: nat, id: nat, comp: string, at: int, blocked: bool, i: int)
    requires Settled(sys, i)
    ensures Settled(Next(sys, CreateTarget(f, id, comp, at, blocked)), i)
  {
    var sys' := Next(sys, CreateTarget(f, id, comp, at, blocked));
    if sys' != sys {
      var flow := sys.flows[f];
      CreateTargetCases(sys, f, id, comp, at, blocked);
      if sys'.db == sys.db {
        FlowSettles(sys, sys', i, f, sys'.flows[f]);
      } else {
        var step := Transaction.CreateTask(id, flow.instance, flow.plan[flow.created], comp, at, blocked);
        LocalSettles(sys, step, i);
        FlowSettles(sys.(db := Run(sys.db, step)), sys', i, f, sys'.flows[f]);
      }
    }
  }

  lemma ActivationSettles(s: Store, i: int, plan: seq<string>, now: int)
    requires TasksSettled(s, i) && HasStatus(s, i, Withdrawing) && PlanCovers(s, i, plan)
    ensures var s' := Run(s, Transaction.Activate(i, plan, now));
      HasStatus(s', i, Withdrawing) && OnlyCompensating(s', i) && TasksSettled(s', i)
  {
    ActivationCovers(s, i, plan, now);
  }

  lemma OwnActivationSettles(sys: Sys, f: nat, now: int, i: int)
    requires Settled(sys, i) && At(sys, f, Applying) && sys.flows[f].instance == i
    requires sys.flows[f].created >= |sys.flows[f].plan| && HasStatus(sys.db, i, Withdrawing)
    ensures Settled(Next(sys, ActivatePlan(f, now)), i)
  {
    var step := Transaction.Activate(i, sys.flows[f].plan, now);
    ActivationSettles(sys.db, i, sys.flows[f].plan, now);
    StepKeepsConsistent(sys.db, step);
    var mid := sys.(db := Run(sys.db, step));
    forall g | g in mid.flows && mid.flows[g].instance == i ensures FlowSettled(mid.db, mid.flows[g]) {
      assert FlowSettled(sys.db, sys.flows[g]);
    }
    FlowSettles(mid, Next(sys, ActivatePlan(f, now)), i, f, sys.flows[f].(stage := Finalizing));
  }

  lemma OtherActivationSettles(sys: Sys, f: nat, now: int, i: int)
    requires Settled(sys, i) && At(sys, f, Applying) && sys.flows[f].instance != i
    requires sys.flows[f].created >= |sys.flows[f].plan|
    ensures Settled(Next(sys, ActivatePlan(f, now)), i)
  {
    var sys', flow := Next(sys, ActivatePlan(f, now)), sys.flows[f];
    EventIsTransaction(sys, ActivatePlan(f, now));
    OtherSettles(sys, Transaction.Activate(flow.instance, flow.plan, now), i, sys'.db);
    FlowSettles(sys.(db := sys'.db), sys', i, f, sys'.flows[f]);
  }

  lemma ActivateSettles(sys: Sys, f: nat, now: int, i: int)
    requires Settled(sys, i)
    ensures Settled(Next(sys, ActivatePlan(f, now)), i)
  {
    var sys' := Next(sys, ActivatePlan(f, now));
    if sys' != sys {
      var flow := sys.flows[f];
      if flow.instance != i {
        OtherActivationSettles(sys, f, now, i);
      } else if HasStatus(sys.db, i, Withdrawing) {
        OwnActivationSettles(sys, f, now, i);
      } else {
        FlowSettles(sys, sys', i, f, sys'.flows[f]);
      }
    }
  }

  lemma FinalizedIdle(s: Store, i: int)
    requires TasksSettled(s, i) && OnlyCompensating(s, i)
    ensures TasksSettled(WithdrawalModel.TryFinalize(s, i).store, i)
    ensures OnlyCompensating(WithdrawalModel.TryFinalize(s, i).store, i)
  {
    var s' := WithdrawalModel.TryFinalize(s, i).store;
    if s' != s {
      forall t | t in s'.tasks ensures !ActiveIn(s', i, t) { assert !Unfinished(s, i, t); }
    }
  }

  lemma OwnFinalizeSettles(sys: Sys, f: nat, i: int)
    requires Settled(sys, i) && At(sys, f, Finalizing) && sys.flows[f].instance == i
    ensures Settled(sys.(db := Run(sys.db, Transaction.TryFinalize(i))), i)
  {
    var db := Run(sys.db, Transaction.TryFinalize(i));
    assert FlowSettled(sys.db, sys.flows[f]);
    FinalizedIdle(sys.db, i);
    StillConsistent(sys.db, db, Transaction.TryFinalize(i));
    assert db.tasks == sys.db.tasks;
    forall g | g in sys.flows && sys.flows[g].instance == i ensures FlowSettled(db, sys.flows[g]) {
      assert FlowSettled(sys.db, sys.flows[g]);
    }
  }

  lemma FinalizedSettles(sys: Sys, f: nat, i: int, db: Store)
    requires Settled(sys, i) && At(sys, f, Finalizing) && db == Run(sys.db, Transaction.TryFinalize(sys.flows[f].instance))
    ensures Settled(sys.(db := db), i)
  {
    if sys.flows[f].instance == i {
      OwnFinalizeSettles(sys, f, i);
    } else {
      OtherSettles(sys, Transaction.TryFinalize(sys.flows[f].instance), i, db);
    }
  }

  lemma FinalizeShape(sys: Sys, f: nat)
    requires At(sys, f, Finalizing)
    ensures var db := Run(sys.db, Transaction.TryFinalize(sys.flows[f].instance));
      Next(sys, Finalize(f)) == sys.(db := db, flows := sys.flows[f := sys.flows[f].(stage := Done)])
  {
  }

  lemma FinalizeSettles(sys: Sys, f: nat, i: int)
    requires Settled(sys, i)
    ensures Settled(Next(sys, Finalize(f)), i)
  {
    if At(sys, f, Finalizing) {
      var db := Run(sys.db, Transaction.TryFinalize(sys.flows[f].instance));
      FinalizeShape(sys, f);
      FinalizedSettles(sys, f, i, db);
      FlowSettles(sys.(db := db), Next(sys, Finalize(f)), i, f, sys.flows[f].(stage := Done));
    }
  }

  lemma PrepareSettles(sys: Sys, f: nat, j: int, i: int)
    requires Settled(sys, i)
    ensures Settled(Next(sys, PrepareWithdrawal(f, j)), i)
  {
    var sys' := Next(sys, PrepareWithdrawal(f, j));
    if sys' != sys {
      OtherSettles(sys, Transaction.Prepare(j), i, sys'.db);
      FlowSettles(sys.(db := sys'.db), sys', i, f, sys'.flows[f]);
    }
  }

  lemma RollBackShape(sys: Sys, f: nat)
    requires At(sys, f, RollingBack)
    ensures var db := Run(sys.db, Transaction.Rollback(sys.flows[f].instance));
      Next(sys, RollBack(f)) == sys.(db := db, flows := sys.flows[f := sys.flows[f].(stage := Done)])
  {
  }

  lemma RollBackSettles(sys: Sys, f: nat, i: int)
    requires Settled(sys, i)
    ensures Settled(Next(sys, RollBack(f)), i)
  {
    if At(sys, f, RollingBack) {
      var db := Run(sys.db, Transaction.Rollback(sys.flows[f].instance));
      RollBackShape(sys, f);
      OtherSettles(sys, Transaction.Rollback(sys.flows[f].instance), i, db);
      FlowSettles(sys.(db := db), Next(sys, RollBack(f)), i, f, sys.flows[f].(stage := Done));
    }
  }

  lemma NextSettles(sys: Sys, e: Event, i: int)
    requires Settled(sys, i)
    ensures Settled(Next(sys, e), i)
  {
    match e
    case Local(step) => if IsLocal(step) { LocalSettles(sys, step, i); }
    case BuildPlan(f, order) => BuildSettles(sys, f, order, i);
    case CreateTarget(f, id, comp, at, blocked) => CreateSettles(sys, f, id, comp, at, blocked, i);
    case ActivatePlan(f, now) => ActivateSettles(sys, f, now, i);
    case Finalize(f) => FinalizeSettles(sys, f, i);
    case FailPlan(f) => FailSettles(sys, f, i);
    case RevokeEngine(f, fails) => RevokeSettles(sys, f, fails, i);
    case Recover(_, _) => BeginSettles(sys, e, i);
    case ObserveCompletion(_, _) => BeginSettles(sys, e, i);
    case PrepareWithdrawal(f, j) => PrepareSettles(sys, f, j, i);
    case RollBack(f) => RollBackSettles(sys, f, i);
    case RecoverActive(j) => if j !in sys.revoked { OtherSettles(sys, Transaction.Rollback(j), i, Next(sys, e).db); }
  }

  lemma {:induction false} PlaySettles(sys: Sys, events: seq<Event>, i: int)
    requires Settled(sys, i)
    ensures Settled(Play(sys, events), i)
    decreases |events|
  {
    if events != [] {
      NextSettles(sys, events[0], i);
      PlaySettles(Next(sys, events[0]), events[1..], i);
    }
  }

  // ---------------------------------------------------------------- a call left behind by the revocation

  /** Everything of the instance that executes is named by a succeeded task, so a withdrawal may be prepared. */
  ghost predicate AllCovered(s: Store, i: int) {
    forall t | t in s.tasks && ActiveIn(s, i, t) :: Covered(s, i, s.tasks[t].node)
  }

  /** Nothing of the instance begins to execute, and no success is lost. */
  ghost predicate NothingStarts(s: Store, s': Store, i: int) {
    && (forall t | t in s'.tasks && ActiveIn(s', i, t) :: ActiveIn(s, i, t) && s'.tasks[t].node == s.tasks[t].node)
    && (forall t, node | t in s.tasks && Compensates(s, t, i, node) :: Compensates(s', t, i, node))
  }

  lemma CoveredStays(s: Store, s': Store, i: int)
    requires AllCovered(s, i) && NothingStarts(s, s', i)
    ensures AllCovered(s', i)
  {
    forall t | t in s'.tasks && ActiveIn(s', i, t) ensures Covered(s', i, s'.tasks[t].node) {
      assert ActiveIn(s, i, t);
      var source :| source in s.tasks && Compensates(s, source, i, s.tasks[t].node);
      assert Compensates(s', source, i, s'.tasks[t].node);
    }
  }

  /** Only flow `f` moved. */
  predicate OnlyFlow(sys: Sys, sys': Sys, f: nat) {
    && f in sys.flows && f in sys'.flows && sys'.flows == sys.flows[f := sys'.flows[f]]
    && sys'.flows[f].instance == sys.flows[f].instance
    && sys'.rounds == sys.rounds && sys'.revoked == sys.revoked
  }

  /** The ticket has this status, call `f` has reached this stage, and a withdrawal could be prepared. */
  ghost predicate Stands(sys: Sys, i: int, status: TicketStatus, f: nat, stage: Stage) {
    && Consistent(sys.db) && AllCovered(sys.db, i) && HasStatus(sys.db, i, status)
    && At(sys, f, stage) && sys.flows[f].instance == i
  }

  function FreshTask(s: Store): (id: nat)
    ensures id !in s.tasks
  {
    if s.tasks.Keys == {} then 0 else MaxOf(s.tasks.Keys) + 1
  }

  lemma CreateStartsNothing(s: Store, id: nat, j: int, node: string, comp: string, i: int)
    ensures var s' := Run(s, Transaction.CreateTask(id, j, node, comp, 0, false));
      NothingStarts(s, s', i) && s'.tickets == s.tickets
  {
  }

  lemma CreateKeepsCovered(s: Store, id: nat, i: int, node: string)
    requires Consistent(s) && AllCovered(s, i)
    ensures var s' := Run(s, Transaction.CreateTask(id, i, node, "", 0, false));
      Consistent(s') && AllCovered(s', i) && s'.tickets == s.tickets
  {
    var step := Transaction.CreateTask(id, i, node, "", 0, false);
    StillConsistent(s, Run(s, step), step);
    CreateStartsNothing(s, id, i, node, "", i);
    CoveredStays(s, Run(s, step), i);
  }

  lemma CreatesTarget(sys: Sys, i: int, f: nat) returns (e: Event)
    requires Stands(sys, i, Withdrawing, f, Applying) && sys.flows[f].created < |sys.flows[f].plan|
    ensures Stands(Next(sys, e), i, Withdrawing, f, Applying) && OnlyFlow(sys, Next(sys, e), f) && InOwnRound(sys, e)
    ensures var flow := Next(sys, e).flows[f];
      flow.plan == sys.flows[f].plan && flow.created == sys.flows[f].created + 1
  {
    var id, node := FreshTask(sys.db), sys.flows[f].plan[sys.flows[f].created];
    e := CreateTarget(f, id, "", 0, false);
    CreateKeepsCovered(sys.db, id, i, node);
    TargetCounted(sys, f, id);
  }

  lemma TargetCounted(sys: Sys, f: nat, id: nat)
    requires At(sys, f, Applying) && sys.flows[f].created < |sys.flows[f].plan| && id !in sys.db.tasks
    ensures var sys', flow := Next(sys, CreateTarget(f, id, "", 0, false)), sys.flows[f];
      var step := Transaction.CreateTask(id, flow.instance, flow.plan[flow.created], "", 0, false);
      sys' == Counted(sys, f) || sys' == Counted(sys.(db := Run(sys.db, step)), f)
  {
  }

  lemma {:induction false} CreatesAll(sys: Sys, i: int, f: nat) returns (events: seq<Event>)
    requires Stands(sys, i, Withdrawing, f, Applying) && sys.flows[f].created <= |sys.flows[f].plan|
    ensures var sys' := Play(sys, events);
      && Stands(sys', i, Withdrawing, f, Applying) && OnlyFlow(sys, sys', f) && Disciplined(sys, events)
      && sys'.flows[f].created == |sys'.flows[f].plan|
    decreases |sys.flows[f].plan| - sys.flows[f].created
  {
    if sys.flows[f].created == |sys.flows[f].plan| {
      events := [];
    } else {
      var e := CreatesTarget(sys, i, f);
      var rest := CreatesAll(Next(sys, e), i, f);
      events := [e] + rest;
      assert events[1..] == rest;
    }
  }

  lemma ActivationStartsNothing(s: Store, i: int, plan: seq<string>, now: int)
    ensures var s' := Run(s, Transaction.Activate(i, plan, now)); NothingStarts(s, s', i) && s'.tickets == s.tickets
  {
  }

  lemma Activates(sys: Sys, i: int, f: nat)
    requires Stands(sys, i, Withdrawing, f, Applying) && sys.flows[f].created == |sys.flows[f].plan|
    ensures var sys' := Next(sys, ActivatePlan(f, 0)); Stands(sys', i, Withdrawing, f, Finalizing) && OnlyFlow(sys, sys', f)
  {
    var sys' := Next(sys, ActivatePlan(f, 0));
    ActivatedShape(sys, f, 0);
    StillConsistent(sys.db, sys'.db, Transaction.Activate(i, sys.flows[f].plan, 0));
    ActivationStartsNothing(sys.db, i, sys.flows[f].plan, 0);
    CoveredStays(sys.db, sys'.db, i);
  }

  /** The other call fails to build its plan, or to revoke the engine again. */
  lemma LeftBehindFails(sys: Sys, i: int, f: nat, g: nat) returns (events: seq<Event>)
    requires Stands(sys, i, Withdrawing, f, Finalizing) && i in sys.revoked && EarlyIn(sys, i, g)
    ensures var sys' := Play(sys, events);
      Stands(sys', i, Withdrawing, f, Finalizing) && At(sys', g, RollingBack) && OnlyFlow(sys, sys', g)
    ensures Current(sys, i, g) ==> Disciplined(sys, events) && Current(Play(sys, events), i, g)
  {
    if sys.flows[g].stage.RollingBack? {
      events := [];
    } else {
      var e := if sys.flows[g].stage.Planning? then FailPlan(g) else RevokeEngine(g, false);
      PlayOne(sys, [], e);
      events := [e];
      assert events == [] + [e];
    }
  }

  lemma RollbackStartsNothing(s: Store, i: int)
    requires Consistent(s) && HasStatus(s, i, Withdrawing)
    ensures var s' := WithdrawalModel.Rollback(s, i);
      Consistent(s') && HasStatus(s', i, Processing) && NothingStarts(s, s', i)
  {
    StillConsistent(s, WithdrawalModel.Rollback(s, i), Transaction.Rollback(i));
  }

  lemma LeftBehindRollsBack(sys: Sys, i: int, f: nat, g: nat)
    requires Stands(sys, i, Withdrawing, f, Finalizing) && At(sys, g, RollingBack) && sys.flows[g].instance == i
    ensures Stands(Next(sys, RollBack(g)), i, Processing, f, Finalizing)
  {
    RollbackStartsNothing(sys.db, i);
    CoveredStays(sys.db, WithdrawalModel.Rollback(sys.db, i), i);
  }

  // ---------------------------------------------------------------- a task that executes when the next withdrawal begins

  lemma FreshNode(nodes: set<string>) returns (node: string)
    ensures node !in nodes && node != ""
  {
    var sizes := set n | n in nodes :: |n|;
    var size := if sizes == {} then 1 else MaxOf(sizes) + 1;
    node := seq(size, _ => 'n');
    assert forall n | n in nodes :: |n| in sizes;
  }

  /** Task `t` of the instance has this node and status; nothing else of the instance has begun since `s`. */
  ghost predicate Brings(s: Store, s': Store, i: int, t: nat, node: string, status: TaskStatus) {
    && Consistent(s') && s'.tickets == s.tickets && t in s'.tasks
    && s'.tasks[t].instance == i && s'.tasks[t].node == node && s'.tasks[t].kind.Process? && s'.tasks[t].status == status
    && (forall u | u in s.tasks :: u in s'.tasks && s'.tasks[u] == s.tasks[u])
    && (forall u | u in s'.tasks && u !in s.tasks :: u == t)
  }

  lemma Creates(s: Store, i: int, node: string, comp: string)
    requires Consistent(s) && HasStatus(s, i, Processing) && node != "" && !NodeTaken(s, i, node)
    ensures var t := FreshTask(s); var s' := Run(s, Transaction.CreateTask(t, i, node, comp, 0, false));
      Brings(s, s', i, t, node, TaskStatus.Waiting) && s'.tasks[t].compensation == comp
  {
    StepKeepsConsistent(s, Transaction.CreateTask(FreshTask(s), i, node, comp, 0, false));
  }

  lemma BeginsRow(s: Store, i: int, t: nat)
    requires Consistent(s) && HasStatus(s, i, Processing) && t in s.tasks
    requires s.tasks[t].instance == i && s.tasks[t].kind.Process? && s.tasks[t].status.Waiting?
    ensures var s' := Run(s, Transaction.Begin(t));
      Adds(s, s', t, LastNumber(s.attempts, t) + 1) && Consistent(s') && LiveOn(s', t)
  {
    BeginAdds(s, t);
    StillConsistent(s, Run(s, Transaction.Begin(t)), Transaction.Begin(t));
  }

  lemma Begins(s: Store, m: Store, i: int, t: nat, node: string)
    requires Brings(s, m, i, t, node, TaskStatus.Waiting) && HasStatus(s, i, Processing) && t !in s.tasks
    ensures var s' := Run(m, Transaction.Begin(t));
      Brings(s, s', i, t, node, TaskStatus.Submitting) && LiveOn(s', t) && s'.tasks[t].compensation == m.tasks[t].compensation
  {
    BeginsRow(m, i, t);
  }

  lemma EndsWell(s: Store, m: Store, i: int, t: nat, node: string)
    requires Brings(s, m, i, t, node, TaskStatus.Submitting) && LiveOn(m, t) && t !in s.tasks
    ensures var s' := Run(m, Transaction.Complete(m.attempts[m.tasks[t].current].request, AttemptStatus.Success));
      Brings(s, s', i, t, node, TaskStatus.Success) && s'.tasks[t].compensation == m.tasks[t].compensation
  {
    var a := m.tasks[t].current;
    StepKeepsConsistent(m, Transaction.Complete(m.attempts[a].request, AttemptStatus.Success));
    CompletesOwn(m, a, AttemptStatus.Success);
  }

  /** The instance can do one more node. */
  lemma NodeBegins(s: Store, i: int, node: string, comp: string) returns (steps: seq<Transaction>)
    requires Consistent(s) && HasStatus(s, i, Processing) && node != "" && !NodeTaken(s, i, node)
    ensures var t := FreshTask(s); var s' := RunAll(s, steps);
      && AllLocal(steps) && Brings(s, s', i, t, node, TaskStatus.Submitting) && LiveOn(s', t)
      && s'.tasks[t].compensation == comp
  {
    var t := FreshTask(s);
    Creates(s, i, node, comp);
    steps := RunMore(s, [], Transaction.CreateTask(t, i, node, comp, 0, false));
    Begins(s, RunAll(s, steps), i, t, node);
    steps := RunMore(s, steps, Transaction.Begin(t));
  }

  lemma NodeSucceeds(s: Store, i: int, node: string, comp: string) returns (steps: seq<Transaction>)
    requires Consistent(s) && HasStatus(s, i, Processing) && node != "" && !NodeTaken(s, i, node)
    ensures var t := FreshTask(s); var s' := RunAll(s, steps);
      && AllLocal(steps) && Brings(s, s', i, t, node, TaskStatus.Success) && Compensates(s', t, i, comp)
  {
    var t := FreshTask(s);
    steps := NodeBegins(s, i, node, comp);
    var m := RunAll(s, steps);
    EndsWell(s, m, i, t, node);
    steps := RunMore(s, steps, Transaction.Complete(m.attempts[m.tasks[t].current].request, AttemptStatus.Success));
  }

  lemma BroughtCovered(s: Store, s': Store, i: int, t: nat, node: string, status: TaskStatus)
    requires AllCovered(s, i) && Brings(s, s', i, t, node, status) && t !in s.tasks
    requires status.Active() ==> Covered(s, i, node)
    ensures AllCovered(s', i)
  {
    forall u | u in s'.tasks && ActiveIn(s', i, u) ensures Covered(s', i, s'.tasks[u].node) {
      if u in s.tasks { assert ActiveIn(s, i, u); }
      var source :| source in s.tasks && Compensates(s, source, i, s'.tasks[u].node);
      assert Compensates(s', source, i, s'.tasks[u].node);
    }
  }

  /** The work of the instance can go on until a compensation executes that a succeeded task names. */
  lemma GetsBusy(s: Store, i: int) returns (steps: seq<Transaction>, t: nat)
    requires Consistent(s) && HasStatus(s, i, Processing) && AllCovered(s, i)
    ensures var s' := RunAll(s, steps);
      && AllLocal(steps) && Consistent(s') && HasStatus(s', i, Processing) && AllCovered(s', i) && ActiveIn(s', i, t)
  {
    var nodes := set u | u in s.tasks :: s.tasks[u].node;
    var undo := FreshNode(nodes);
    var work := FreshNode(nodes + {undo});
    var first := NodeSucceeds(s, i, work, undo);
    var m := RunAll(s, first);
    BroughtCovered(s, m, i, FreshTask(s), work, TaskStatus.Success);
    t := FreshTask(m);
    var second := NodeBegins(m, i, undo, "");
    BroughtCovered(m, RunAll(m, second), i, t, undo, TaskStatus.Submitting);
    steps := first + second;
    RunSplit(s, first, second);
  }

  function Locals(steps: seq<Transaction>): seq<Event> { seq(|steps|, k requires 0 <= k < |steps| => Local(steps[k])) }

  lemma {:induction false} LocalsPlay(sys: Sys, steps: seq<Transaction>)
    requires AllLocal(steps)
    ensures Play(sys, Locals(steps)) == sys.(db := RunAll(sys.db, steps)) && Disciplined(sys, Locals(steps))
    decreases |steps|
  {
    if steps != [] {
      assert Locals(steps)[1..] == Locals(steps[1..]);
      LocalsPlay(sys.(db := Run(sys.db, steps[0])), steps[1..]);
    }
  }

  lemma PreparesAgain(s: Store, i: int, t: nat)
    requires Consistent(s) && AllCovered(s, i) && HasStatus(s, i, Processing) && ActiveIn(s, i, t)
    ensures WithdrawalModel.Prepare(s, i).result.Ok?
    ensures var s' := WithdrawalModel.Prepare(s, i).store;
      HasStatus(s', i, Withdrawing) && ActiveIn(s', i, t) && !Compensating(s', i)
  {
    forall u | u in s.tasks ensures !Obstructs(s, i, u) {}
  }

  lemma FinalizesBusy(s: Store, i: int, t: nat)
    requires HasStatus(s, i, Withdrawing) && ActiveIn(s, i, t) && !Compensating(s, i)
    ensures var s' := WithdrawalModel.TryFinalize(s, i).store; HasStatus(s', i, Withdrawn) && ActiveIn(s', i, t)
  {
    forall u | u in s.tasks ensures !Unfinished(s, i, u) {}
  }

  lemma PreparesOver(sys: Sys, i: int, f: nat, t: nat, h: nat)
    requires Stands(sys, i, Processing, f, Finalizing) && ActiveIn(sys.db, i, t) && h !in sys.flows
    ensures var m := Next(sys, PrepareWithdrawal(h, i));
      && HasStatus(m.db, i, Withdrawing) && ActiveIn(m.db, i, t) && !Compensating(m.db, i)
      && At(m, f, Finalizing) && m.flows[f].instance == i
  {
    PreparesAgain(sys.db, i, t);
  }

  lemma FreshFlow(sys: Sys) returns (h: nat)
    ensures h !in sys.flows
  {
    h := if sys.flows.Keys == {} then 0 else MaxOf(sys.flows.Keys) + 1;
  }

  /** The next withdrawal begins while the task executes, and the call that revoked the engine ends it. */
  lemma EndsBusy(sys: Sys, i: int, f: nat, t: nat) returns (events: seq<Event>)
    requires Stands(sys, i, Processing, f, Finalizing) && ActiveIn(sys.db, i, t)
    ensures var sys' := Play(sys, events);
      HasStatus(sys'.db, i, Withdrawn) && ActiveIn(sys'.db, i, t) && Disciplined(sys, events)
  {
    var h := FreshFlow(sys);
    PreparesOver(sys, i, f, t, h);
    events := [] + [PrepareWithdrawal(h, i)];
    PlayOne(sys, [], PrepareWithdrawal(h, i));
    FinalizesBusy(Play(sys, events).db, i, t);
    PlayOne(sys, events, Finalize(f));
    events := events + [Finalize(f)];
  }

  // ---------------------------------------------------------------- when a revocation is safe

  /** Call `f` is about to revoke the engine of its withdrawing instance for the first time. */
  predicate MayRevoke(sys: Sys, f: nat) {
    At(sys, f, Planned) && sys.flows[f].instance !in sys.revoked && HasStatus(sys.db, sys.flows[f].instance, Withdrawing)
  }

  function Revoked(sys: Sys, f: nat): Sys { Next(sys, RevokeEngine(f, false)) }

  ghost predicate WithdrawnMeansQuiet(sys: Sys, i: int) { HasStatus(sys.db, i, Withdrawn) ==> Quiet(sys.db, i) }

  /** Whatever events follow. */
  ghost predicate AlwaysQuiet(sys: Sys, i: int) {
    forall events {:trigger Play(sys, events)} :: WithdrawnMeansQuiet(Play(sys, events), i)
  }

  /** Whatever events follow in which each call acts in its own round. */
  ghost predicate DisciplinedQuiet(sys: Sys, i: int) {
    forall events {:trigger Disciplined(sys, events)} | Disciplined(sys, events) :: WithdrawnMeansQuiet(Play(sys, events), i)
  }

  /** No other call of the instance is before its revocation. */
  ghost predicate OnlyCall(sys: Sys, f: nat)
    requires f in sys.flows
  {
    forall g | EarlyIn(sys, sys.flows[f].instance, g) :: g == f
  }

  /** The only call acts in its own round, and its plan covers what executes. */
  lemma OnlyCallIsCurrent(sys: Sys, f: nat)
    requires Inv(sys) && RoundOpen(sys) && MayRevoke(sys, f) && OnlyCall(sys, f)
    ensures Current(sys, sys.flows[f].instance, f) && PlanCovers(sys.db, sys.flows[f].instance, sys.flows[f].plan)
  {
    var i := sys.flows[f].instance;
    assert Open(sys, i) && FlowOk(sys, f);
    var g :| Current(sys, i, g);
  }

  lemma NothingCompensates(sys: Sys, i: int)
    requires Inv(sys) && i !in sys.revoked
    ensures !Compensating(sys.db, i)
  {
  }

  lemma RevocationSettles(sys: Sys, f: nat)
    requires Inv(sys) && RoundOpen(sys) && MayRevoke(sys, f) && OnlyCall(sys, f)
    ensures Settled(Revoked(sys, f), sys.flows[f].instance)
  {
    var i := sys.flows[f].instance;
    OnlyCallIsCurrent(sys, f);
    assert FlowOk(sys, f) && InstanceOk(sys, i);
    NothingCompensates(sys, i);
    forall g | g in sys.flows && sys.flows[g].instance == i && g != f ensures FlowSettled(sys.db, sys.flows[g]) {
      assert FlowOk(sys, g);
      assert !EarlyIn(sys, i, g);
    }
  }

  lemma SettledMeansQuiet(sys: Sys, i: int)
    requires Settled(sys, i)
    ensures WithdrawnMeansQuiet(sys, i)
  {
    if HasStatus(sys.db, i, Withdrawn) { IdleIsQuiet(sys.db, i); }
  }

  lemma OnlyCallIsSafe(sys: Sys, f: nat)
    requires Inv(sys) && RoundOpen(sys) && MayRevoke(sys, f) && OnlyCall(sys, f)
    ensures AlwaysQuiet(Revoked(sys, f), sys.flows[f].instance)
  {
    var i := sys.flows[f].instance;
    RevocationSettles(sys, f);
    forall events ensures WithdrawnMeansQuiet(Play(Revoked(sys, f), events), i) {
      PlaySettles(Revoked(sys, f), events, i);
      SettledMeansQuiet(Play(Revoked(sys, f), events), i);
    }
  }

  lemma RevokedStands(sys: Sys, f: nat)
    requires Inv(sys) && MayRevoke(sys, f)
    ensures Stands(Revoked(sys, f), sys.flows[f].instance, Withdrawing, f, Applying)
    ensures Revoked(sys, f).flows[f].created == 0
  {
    var i := sys.flows[f].instance;
    assert FlowOk(sys, f) && InstanceOk(sys, i);
    NothingCompensates(sys, i);
    forall t | t in sys.db.tasks && ActiveIn(sys.db, i, t) ensures Covered(sys.db, i, sys.db.tasks[t].node) {}
  }

  /** Two runs in a row. */
  lemma PlayAfter(sys: Sys, a: seq<Event>, b: seq<Event>) returns (c: seq<Event>)
    ensures Play(sys, c) == Play(Play(sys, a), b)
    ensures Disciplined(sys, a) && Disciplined(Play(sys, a), b) ==> Disciplined(sys, c)
  {
    c := a + b;
    PlaySplit(sys, a, b);
  }

  lemma AppliesPlan(sys: Sys, i: int, f: nat) returns (events: seq<Event>)
    requires Stands(sys, i, Withdrawing, f, Applying) && sys.flows[f].created <= |sys.flows[f].plan|
    ensures var sys' := Play(sys, events);
      Stands(sys', i, Withdrawing, f, Finalizing) && OnlyFlow(sys, sys', f) && Disciplined(sys, events)
  {
    events := CreatesAll(sys, i, f);
    Activates(Play(sys, events), i, f);
    PlayOne(sys, events, ActivatePlan(f, 0));
    events := events + [ActivatePlan(f, 0)];
  }

  lemma LeftBehindReopens(sys: Sys, i: int, f: nat, g: nat) returns (events: seq<Event>)
    requires Stands(sys, i, Withdrawing, f, Finalizing) && i in sys.revoked && EarlyIn(sys, i, g)
    ensures Stands(Play(sys, events), i, Processing, f, Finalizing)
    ensures Current(sys, i, g) ==> Disciplined(sys, events)
  {
    events := LeftBehindFails(sys, i, f, g);
    LeftBehindRollsBack(Play(sys, events), i, f, g);
    PlayOne(sys, events, RollBack(g));
    events := events + [RollBack(g)];
  }

  /** The revoking call applies its plan, then the call left behind rolls the ticket back. */
  lemma ReopensTicket(sys: Sys, f: nat, g: nat) returns (events: seq<Event>)
    requires Inv(sys) && MayRevoke(sys, f) && g != f && EarlyIn(sys, sys.flows[f].instance, g)
    ensures Stands(Play(Revoked(sys, f), events), sys.flows[f].instance, Processing, f, Finalizing)
    ensures Current(sys, sys.flows[f].instance, g) ==> Disciplined(Revoked(sys, f), events)
  {
    var i, s0 := sys.flows[f].instance, Revoked(sys, f);
    RevokedStands(sys, f);
    var first := AppliesPlan(s0, i, f);
    var s1 := Play(s0, first);
    assert EarlyIn(s1, i, g) && (Current(sys, i, g) ==> Current(s1, i, g));
    var rest := LeftBehindReopens(s1, i, f, g);
    events := PlayAfter(s0, first, rest);
  }

  /** A call that is still before its revocation when another one revokes the engine can bring the ticket to its end
      while something executes. */
  lemma LeftBehindHarms(sys: Sys, f: nat, g: nat) returns (events: seq<Event>)
    requires Inv(sys) && MayRevoke(sys, f) && g != f && EarlyIn(sys, sys.flows[f].instance, g)
    ensures !WithdrawnMeansQuiet(Play(Revoked(sys, f), events), sys.flows[f].instance)
    ensures Current(sys, sys.flows[f].instance, g) ==> Disciplined(Revoked(sys, f), events)
  {
    var i, s0 := sys.flows[f].instance, Revoked(sys, f);
    events := ReopensTicket(sys, f, g);
    var s1 := Play(s0, events);
    var work, t := GetsBusy(s1.db, i);
    LocalsPlay(s1, work);
    var s2 := Play(s1, Locals(work));
    events := PlayAfter(s0, events, Locals(work));
    var last := EndsBusy(s2, i, f, t);
    events := PlayAfter(s0, events, last);
  }

  lemma ReachableHolds(events: seq<Event>)
    requires Disciplined(INITIAL, events)
    ensures Inv(Play(INITIAL, events)) && RoundOpen(Play(INITIAL, events))
  {
    InitialInv();
    PlayKeepsInv(INITIAL, events);
    PlayKeepsOpen(INITIAL, events);
  }

  /** Revoking the engine is safe, whatever follows, if and only if no other call of the instance is still before its
      revocation: with such a call the ticket can end withdrawn while something executes, without one it never does. */
  lemma RevocationSafeExactly(events: seq<Event>, f: nat)
    requires Disciplined(INITIAL, events) && MayRevoke(Play(INITIAL, events), f)
    ensures var sys := Play(INITIAL, events); AlwaysQuiet(Revoked(sys, f), sys.flows[f].instance) <==> OnlyCall(sys, f)
  {
    var sys := Play(INITIAL, events);
    ReachableHolds(events);
    if OnlyCall(sys, f) {
      OnlyCallIsSafe(sys, f);
    } else {
      var g :| EarlyIn(sys, sys.flows[f].instance, g) && g != f;
      var harm := LeftBehindHarms(sys, f, g);
      assert !WithdrawnMeansQuiet(Play(Revoked(sys, f), harm), sys.flows[f].instance);
    }
  }

  lemma OwnRoundIsSafe(sys: Sys, f: nat)
    requires Inv(sys) && MayRevoke(sys, f) && InOwnRound(sys, RevokeEngine(f, false))
    ensures DisciplinedQuiet(Revoked(sys, f), sys.flows[f].instance)
  {
    var i, s0 := sys.flows[f].instance, Revoked(sys, f);
    NextKeepsInv(sys, RevokeEngine(f, false));
    forall events | Disciplined(s0, events) ensures WithdrawnMeansQuiet(Play(s0, events), i) {
      PlayKeepsInv(s0, events);
      InvMeansQuiet(Play(s0, events), i);
    }
  }

  /** If every later call acts in its own round, revoking the engine is safe if and only if this call does so too. */
  lemma RevocationSafeInRounds(events: seq<Event>, f: nat)
    requires Disciplined(INITIAL, events) && MayRevoke(Play(INITIAL, events), f)
    ensures var sys := Play(INITIAL, events);
      DisciplinedQuiet(Revoked(sys, f), sys.flows[f].instance) <==> InOwnRound(sys, RevokeEngine(f, false))
  {
    var sys := Play(INITIAL, events);
    ReachableHolds(events);
    if InOwnRound(sys, RevokeEngine(f, false)) {
      OwnRoundIsSafe(sys, f);
    } else {
      var i := sys.flows[f].instance;
      assert Open(sys, i);
      var g :| Current(sys, i, g);
      var harm := LeftBehindHarms(sys, f, g);
      assert Disciplined(Revoked(sys, f), harm) && !WithdrawnMeansQuiet(Play(Revoked(sys, f), harm), i);
    }
  }
}
