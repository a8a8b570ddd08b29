/** Safety of the withdrawal protocol over whole runs. */
module WithdrawalSafety {
  import opened Prelude
  import opened AutomationModel
  import opened WithdrawalModel
  import opened Transactions
  import opened WithdrawalProtocol

  // ---------------------------------------------------------------- what local transactions may do

  ghost predicate TaskFrame(s: Store, s': Store, t: nat)
    requires t in s.tasks
  {
    && t in s'.tasks
    && s'.tasks[t].instance == s.tasks[t].instance
    && s'.tasks[t].node == s.tasks[t].node
    && s'.tasks[t].compensation == s.tasks[t].compensation
    && s'.tasks[t].kind == s.tasks[t].kind
    && (s.tasks[t].status.Success? ==> s'.tasks[t].status.Success?)
    && (s'.tasks[t].status.Active() ==>
          s.tasks[t].status.Active()
          || (s.tasks[t].instance in s.tickets && AllowsStart(s.tasks[t].kind, s.tickets[s.tasks[t].instance])))
  }

  ghost predicate TicketFrame(s: Store, s': Store, i: int)
    requires i in s'.tickets
  {
    if i in s.tickets then
      s'.tickets[i] == s.tickets[i] || (s.tickets[i].Processing? && s'.tickets[i].Ended?)
    else
      s'.tickets[i].Processing?
  }

  /** Tasks keep their identity and kind, start only when the ticket allows it, and are born idle. */
  ghost predicate LocalFrame(s: Store, s': Store) {
    && s.tickets.Keys <= s'.tickets.Keys
    && (forall i | i in s'.tickets :: TicketFrame(s, s', i))
    && (forall t | t in s.tasks :: TaskFrame(s, s', t))
    && (forall t | t in s'.tasks && t !in s.tasks :: s'.tasks[t].kind.Process? && !s'.tasks[t].status.Active())
  }

  lemma AttemptStepFrame(s: Store, step: Transaction)
    requires OnAttempt(step)
    ensures LocalFrame(s, Run(s, step))
  {
    var s' := Run(s, step);
    assert s'.tickets == s.tickets && s'.tasks.Keys == s.tasks.Keys;
    forall t | t in s.tasks ensures TaskFrame(s, s', t) {}
  }

  lemma TicketStepFrame(s: Store, step: Transaction)
    requires step.OpenTicket? || step.EndTicket?
    ensures LocalFrame(s, Run(s, step))
  {
    var s' := Run(s, step);
    assert s'.tasks == s.tasks;
    forall t | t in s.tasks ensures TaskFrame(s, s', t) {}
  }

  lemma TaskStepFrame(s: Store, step: Transaction)
    requires OnTask(step) || step.Begin? || step.CreateTask?
    ensures LocalFrame(s, Run(s, step))
  {
    var s' := Run(s, step);
    assert s'.tickets == s.tickets;
    forall t | t in s.tasks ensures TaskFrame(s, s', t) {}
  }

  lemma LocalStepFrame(s: Store, step: Transaction)
    requires IsLocal(step)
    ensures LocalFrame(s, Run(s, step))
  {
    if OnAttempt(step) {
      AttemptStepFrame(s, step);
    } else if OnInstance(step) {
      TicketStepFrame(s, step);
    } else {
      TaskStepFrame(s, step);
    }
  }

  // ---------------------------------------------------------------- invariants

  /** Every executing ordinary task of the instance is on a node of `nodes`. */
  ghost predicate PlanCovers(s: Store, i: int, nodes: seq<string>) {
    forall t | t in s.tasks && ActiveIn(s, i, t) && s.tasks[t].kind.Process? :: s.tasks[t].node in nodes
  }

  ghost predicate ActiveCovered(s: Store, i: int) {
    forall t | t in s.tasks && ActiveIn(s, i, t) && s.tasks[t].kind.Process? :: Covered(s, i, s.tasks[t].node)
  }

  ghost predicate OnlyCompensating(s: Store, i: int) {
    forall t | t in s.tasks && ActiveIn(s, i, t) :: s.tasks[t].kind.Compensation?
  }

  ghost predicate Marked(s: Store, i: int, node: string) {
    exists t :: t in s.tasks && MarkedBy(s, i, node, t)
  }

  predicate MarkedBy(s: Store, i: int, node: string, t: nat) {
    t in s.tasks && s.tasks[t].instance == i && s.tasks[t].node == node && s.tasks[t].kind.Compensation?
  }

  ghost predicate AllSucceeded(s: Store, i: int) {
    forall t | t in s.tasks && s.tasks[t].instance == i && s.tasks[t].kind.Compensation? :: s.tasks[t].status.Success?
  }

  ghost predicate InstanceOk(sys: Sys, i: int)
    requires i in sys.db.tickets
  {
    && (i in sys.revoked ==> sys.db.tickets[i].Withdrawing? || sys.db.tickets[i].Withdrawn?)
    && (sys.db.tickets[i].Withdrawing? ==> ActiveCovered(sys.db, i))
    && (i in sys.applied ==> i in sys.revoked && OnlyCompensating(sys.db, i))
    && (i in sys.applied ==> forall n | n in sys.applied[i] :: Marked(sys.db, i, n))
    && (sys.db.tickets[i].Withdrawn? ==> i in sys.applied && AllSucceeded(sys.db, i))
  }

  ghost predicate FlowOk(sys: Sys, f: nat)
    requires f in sys.flows
  {
    var flow := sys.flows[f];
    var i := flow.instance;
    && i in sys.db.tickets
    && flow.round <= Round(sys, i)
    && (flow.stage.Early() && flow.round == Round(sys, i) ==> i !in sys.revoked)
    && (flow.stage.Late() ==> i in sys.revoked)
    && (flow.stage.Finalizing? ==> i in sys.applied)
    && (flow.stage.Planned? && flow.round == Round(sys, i) && sys.db.tickets[i].Withdrawing? ==>
          PlanCovers(sys.db, i, flow.plan))
    && (flow.stage.Applying? ==> PlanCovers(sys.db, i, flow.plan))
    && "" !in flow.plan
    && (flow.stage.Planned? ==> flow.created == 0)
    && (flow.stage.Applying? ==>
          flow.created <= |flow.plan| && forall k | 0 <= k < flow.created :: NodeTaken(sys.db, i, flow.plan[k]))
  }

  ghost predicate SameRound(sys: Sys, f: nat, g: nat)
    requires f in sys.flows && g in sys.flows
  {
    sys.flows[f].instance == sys.flows[g].instance && sys.flows[f].round == sys.flows[g].round
  }

  /** One withdrawal round of an instance belongs to at most one service call before revocation. */
  ghost predicate EarlyUnique(sys: Sys) {
    forall f, g | f in sys.flows && g in sys.flows && sys.flows[f].stage.Early()
      && sys.flows[g].stage.Early() && SameRound(sys, f, g) :: f == g
  }

  ghost predicate CompensationsKnown(sys: Sys) {
    forall t | t in sys.db.tasks && sys.db.tasks[t].kind.Compensation? :: sys.db.tasks[t].instance in sys.applied
  }

  ghost predicate Inv(sys: Sys) {
    && Consistent(sys.db)
    && (forall i | i in sys.db.tickets :: InstanceOk(sys, i))
    && (forall f | f in sys.flows :: FlowOk(sys, f))
    && EarlyUnique(sys)
    && CompensationsKnown(sys)
    && sys.applied.Keys <= sys.revoked <= sys.db.tickets.Keys
  }

  // ---------------------------------------------------------------- each step keeps the invariant

  lemma FrameKeepsCoverage(s: Store, s': Store, i: int, nodes: seq<string>)
    requires LocalFrame(s, s') && i in s.tickets && !s.tickets[i].Processing?
    ensures PlanCovers(s, i, nodes) ==> PlanCovers(s', i, nodes)
    ensures ActiveCovered(s, i) ==> ActiveCovered(s', i)
    ensures OnlyCompensating(s, i) ==> OnlyCompensating(s', i)
  {
    forall t | t in s'.tasks && ActiveIn(s', i, t) && s'.tasks[t].kind.Process?
      ensures t in s.tasks && TaskFrame(s, s', t) && ActiveIn(s, i, t)
    {
      if t in s.tasks { assert TaskFrame(s, s', t); }
    }
    if ActiveCovered(s, i) {
      forall t | t in s'.tasks && ActiveIn(s', i, t) && s'.tasks[t].kind.Process?
        ensures Covered(s', i, s'.tasks[t].node)
      {
        var source :| source in s.tasks && Compensates(s, source, i, s.tasks[t].node);
        assert TaskFrame(s, s', source);
        assert Compensates(s', source, i, s'.tasks[t].node);
      }
    }
  }

  lemma FrameKeepsMarks(s: Store, s': Store, i: int, node: string)
    requires LocalFrame(s, s')
    ensures Marked(s, i, node) ==> Marked(s', i, node)
    ensures NodeTaken(s, i, node) ==> NodeTaken(s', i, node)
  {
    if Marked(s, i, node) {
      var t :| t in s.tasks && MarkedBy(s, i, node, t);
      assert TaskFrame(s, s', t);
      assert MarkedBy(s', i, node, t);
    }
    if NodeTaken(s, i, node) {
      var t :| t in s.tasks && s.tasks[t].instance == i && s.tasks[t].node == node;
      assert TaskFrame(s, s', t);
    }
  }

  lemma FrameKeepsInstance(sys: Sys, db: Store, i: int)
    requires LocalFrame(sys.db, db) && i in sys.db.tickets && InstanceOk(sys, i)
    ensures i in db.tickets && InstanceOk(sys.(db := db), i)
  {
    assert TicketFrame(sys.db, db, i);
    if !sys.db.tickets[i].Processing? {
      FrameKeepsCoverage(sys.db, db, i, []);
    }
    if i in sys.applied {
      forall n | n in sys.applied[i] ensures Marked(db, i, n) { FrameKeepsMarks(sys.db, db, i, n); }
    }
    if db.tickets[i].Withdrawn? {
      forall t | t in db.tasks && db.tasks[t].instance == i && db.tasks[t].kind.Compensation?
        ensures db.tasks[t].status.Success?
      {
        assert t in sys.db.tasks && TaskFrame(sys.db, db, t);
      }
    }
  }

  lemma FrameKeepsFlow(sys: Sys, db: Store, f: nat)
    requires LocalFrame(sys.db, db) && f in sys.flows && FlowOk(sys, f)
    requires sys.flows[f].instance in sys.db.tickets && InstanceOk(sys, sys.flows[f].instance)
    ensures FlowOk(sys.(db := db), f)
  {
    var flow := sys.flows[f];
    var i := flow.instance;
    assert TicketFrame(sys.db, db, i);
    if !sys.db.tickets[i].Processing? { FrameKeepsCoverage(sys.db, db, i, flow.plan); }
    if flow.stage.Applying? {
      forall k | 0 <= k < flow.created ensures NodeTaken(db, i, flow.plan[k]) {
        FrameKeepsMarks(sys.db, db, i, flow.plan[k]);
      }
    }
  }

  lemma FrameKeepsInv(sys: Sys, db: Store)
    requires Inv(sys) && LocalFrame(sys.db, db) && Consistent(db)
    ensures Inv(sys.(db := db))
  {
    var sys' := sys.(db := db);
    forall i | i in db.tickets ensures InstanceOk(sys', i) {
      if i in sys.db.tickets {
        FrameKeepsInstance(sys, db, i);
      } else {
        assert TicketFrame(sys.db, db, i);
      }
    }
    forall f | f in sys.flows ensures FlowOk(sys', f) {
      assert FlowOk(sys, f);
      FrameKeepsFlow(sys, db, f);
    }
    forall t | t in db.tasks && db.tasks[t].kind.Compensation? ensures db.tasks[t].instance in sys.applied {
      assert t in sys.db.tasks && TaskFrame(sys.db, db, t);
    }
  }

  lemma LocalKeepsInv(sys: Sys, step: Transaction)
    requires Inv(sys)
    ensures Inv(Next(sys, Local(step)))
  {
    if IsLocal(step) {
      StepKeepsConsistent(sys.db, step);
      LocalStepFrame(sys.db, step);
      FrameKeepsInv(sys, Run(sys.db, step));
    }
  }

  /** Changing only the stage of one flow keeps the invariant if the flow stays in order. */
  lemma FlowKeepsInv(sys: Sys, f: nat, flow: Flow)
    requires Inv(sys)
    requires FlowOk(sys.(flows := sys.flows[f := flow]), f)
    requires flow.stage.Early() ==>
      f in sys.flows && sys.flows[f].stage.Early()
      && sys.flows[f].instance == flow.instance && sys.flows[f].round == flow.round
    ensures Inv(sys.(flows := sys.flows[f := flow]))
  {
    var sys' := sys.(flows := sys.flows[f := flow]);
    forall i | i in sys'.db.tickets ensures InstanceOk(sys', i) { assert InstanceOk(sys, i); }
    forall g | g in sys'.flows ensures FlowOk(sys', g) {
      if g != f { assert FlowOk(sys, g); }
    }
    forall g, h | g in sys'.flows && h in sys'.flows && sys'.flows[g].stage.Early()
      && sys'.flows[h].stage.Early() && SameRound(sys', g, h)
      ensures g == h
    {
      assert SameRound(sys, g, h);
    }
  }

  lemma BuildKeepsInv(sys: Sys, f: nat, order: seq<nat>)
    requires Inv(sys)
    ensures Inv(Next(sys, BuildPlan(f, order)))
  {
    if (At(sys, f, Planning) || At(sys, f, Resuming)) && Lists(sys.db, sys.flows[f].instance, order) {
      var flow := sys.flows[f];
      var i := flow.instance;
      assert FlowOk(sys, f) && InstanceOk(sys, i);
      var plan := PlanTargets(Rows(sys.db, order));
      if !sys.db.tickets[i].Processing? && (sys.db.tickets[i].Withdrawing? || flow.stage.Resuming?) {
        forall t | t in sys.db.tasks && ActiveIn(sys.db, i, t) && sys.db.tasks[t].kind.Process?
          ensures sys.db.tasks[t].node in plan
        {
          assert TaskOk(sys.db, t);
          PlanIsCoverage(sys.db, i, order, sys.db.tasks[t].node);
        }
        assert PlanCovers(sys.db, i, plan);
      }
      var stage := if flow.stage.Planning? then Planned else Applying;
      FlowKeepsInv(sys, f, flow.(stage := stage, plan := plan, created := 0));
    }
  }

  lemma StageKeepsInv(sys: Sys, e: Event)
    requires Inv(sys) && (e.FailPlan? || e.Recover? || e.ObserveCompletion?)
    ensures Inv(Next(sys, e))
  {
    match e
    case FailPlan(f) =>
      if f in sys.flows {
        assert FlowOk(sys, f);
        if At(sys, f, Planning) { FlowKeepsInv(sys, f, sys.flows[f].(stage := RollingBack)); }
        if At(sys, f, Resuming) { FlowKeepsInv(sys, f, sys.flows[f].(stage := Done)); }
      }
    case Recover(f, i) =>
      if Next(sys, e) != sys { FlowKeepsInv(sys, f, Flow(i, Round(sys, i), Resuming, [], 0)); }
    case ObserveCompletion(f, t) =>
      if Next(sys, e) != sys {
        var i := sys.db.tasks[t].instance;
        assert TaskOk(sys.db, t);
        FlowKeepsInv(sys, f, Flow(i, Round(sys, i), Finalizing, [], 0));
      }
    case _ =>
  }

  lemma RevokeKeepsInv(sys: Sys, f: nat, fails: bool)
    requires Inv(sys) && InOwnRound(sys, RevokeEngine(f, fails))
    ensures Inv(Next(sys, RevokeEngine(f, fails)))
  {
    if At(sys, f, Planned) {
      var i := sys.flows[f].instance;
      assert FlowOk(sys, f);
      if fails || i in sys.revoked || !HasStatus(sys.db, i, Withdrawing) {
        FlowKeepsInv(sys, f, sys.flows[f].(stage := RollingBack));
      } else {
        var sys' := Next(sys, RevokeEngine(f, fails));
        forall j | j in sys'.db.tickets ensures InstanceOk(sys', j) { assert InstanceOk(sys, j); }
        forall g | g in sys'.flows ensures FlowOk(sys', g) {
          assert FlowOk(sys, g);
          if g != f && sys.flows[g].instance == i && sys.flows[g].stage.Early() {
            assert sys.flows[g].round == sys.flows[f].round ==> SameRound(sys, f, g);
          }
        }
        forall g, h | g in sys'.flows && h in sys'.flows && sys'.flows[g].stage.Early()
          && sys'.flows[h].stage.Early() && SameRound(sys', g, h)
          ensures g == h
        {
          assert SameRound(sys, g, h);
        }
      }
    }
  }

  lemma CreatedNodeTaken(s: Store, step: Transaction)
    requires step.CreateTask? && step.id !in s.tasks && step.instance in s.tickets && step.node != ""
    ensures NodeTaken(Run(s, step), step.instance, step.node)
  {
    if !NodeTaken(s, step.instance, step.node) {
      assert Run(s, step).tasks[step.id].node == step.node;
    }
  }

  lemma NewTargetKeepsInv(sys: Sys, f: nat, step: Transaction)
    requires Inv(sys) && At(sys, f, Applying) && sys.flows[f].created < |sys.flows[f].plan|
    requires step.CreateTask? && step.id !in sys.db.tasks && step.instance == sys.flows[f].instance
    requires step.node == sys.flows[f].plan[sys.flows[f].created]
    ensures var mid := sys.(db := Run(sys.db, step)); Inv(SetStage(mid, f, Done)) && Inv(Counted(mid, f))
  {
    var mid := sys.(db := Run(sys.db, step));
    assert FlowOk(sys, f);
    LocalKeepsInv(sys, step);
    CreatedNodeTaken(sys.db, step);
    CountTakenKeepsInv(mid, f);
    DropFlowKeepsInv(mid, f);
  }

  lemma DropFlowKeepsInv(sys: Sys, f: nat)
    requires Inv(sys) && At(sys, f, Applying)
    ensures Inv(SetStage(sys, f, Done))
  {
    assert FlowOk(sys, f);
    FlowKeepsInv(sys, f, sys.flows[f].(stage := Done));
  }

  function Counted(sys: Sys, f: nat): Sys
    requires f in sys.flows
  {
    sys.(flows := sys.flows[f := sys.flows[f].(created := sys.flows[f].created + 1)])
  }

  lemma CreateTargetCases(sys: Sys, f: nat, id: nat, comp: string, at: int, blocked: bool)
    requires At(sys, f, Applying) && sys.flows[f].created < |sys.flows[f].plan|
    ensures var sys' := Next(sys, CreateTarget(f, id, comp, at, blocked));
      var node := sys.flows[f].plan[sys.flows[f].created];
      var mid := sys.(db := Run(sys.db, Transaction.CreateTask(id, sys.flows[f].instance, node, comp, at, blocked)));
      if NodeTaken(sys.db, sys.flows[f].instance, node) then sys' == Counted(sys, f)
      else if id in sys.db.tasks then sys' == sys
      else sys' == SetStage(mid, f, Done) || sys' == Counted(mid, f)
  {
  }

  lemma CountTakenKeepsInv(sys: Sys, f: nat)
    requires Inv(sys) && At(sys, f, Applying) && sys.flows[f].created < |sys.flows[f].plan|
    requires NodeTaken(sys.db, sys.flows[f].instance, sys.flows[f].plan[sys.flows[f].created])
    ensures Inv(Counted(sys, f))
  {
    assert FlowOk(sys, f);
    FlowKeepsInv(sys, f, sys.flows[f].(created := sys.flows[f].created + 1));
  }

  lemma CreateTargetKeepsInv(sys: Sys, f: nat, id: nat, comp: string, at: int, blocked: bool)
    requires Inv(sys)
    ensures Inv(Next(sys, CreateTarget(f, id, comp, at, blocked)))
  {
    if At(sys, f, Applying) && sys.flows[f].created < |sys.flows[f].plan| {
      var instance := sys.flows[f].instance;
      var node := sys.flows[f].plan[sys.flows[f].created];
      CreateTargetCases(sys, f, id, comp, at, blocked);
      if NodeTaken(sys.db, instance, node) {
        CountTakenKeepsInv(sys, f);
      } else if id !in sys.db.tasks {
        NewTargetKeepsInv(sys, f, Transaction.CreateTask(id, instance, node, comp, at, blocked));
      }
    }
  }

  /** The two databases differ only in the rows of instance `i`. */
  ghost predicate SameElsewhere(s: Store, s': Store, i: int) {
    && s'.tickets.Keys == s.tickets.Keys
    && s'.tasks.Keys == s.tasks.Keys
    && (forall j | j in s.tickets && j != i :: s'.tickets[j] == s.tickets[j])
    && (forall t | t in s.tasks :: s'.tasks[t].instance == s.tasks[t].instance)
    && (forall t | t in s.tasks && s.tasks[t].instance != i :: s'.tasks[t] == s.tasks[t])
  }

  ghost predicate SysElsewhere(sys: Sys, sys': Sys, i: int) {
    && SameElsewhere(sys.db, sys'.db, i)
    && (forall j: int | j != i :: Round(sys', j) == Round(sys, j))
    && (forall j: int | j != i :: j in sys'.revoked <==> j in sys.revoked)
    && (forall j: int | j != i :: j in sys'.applied <==> j in sys.applied)
    && (forall j | j != i && j in sys.applied :: sys'.applied[j] == sys.applied[j])
  }

  lemma ElsewhereKeepsCoverage(s: Store, s': Store, i: int, j: int, nodes: seq<string>)
    requires SameElsewhere(s, s', i) && j != i
    ensures PlanCovers(s, j, nodes) ==> PlanCovers(s', j, nodes)
    ensures ActiveCovered(s, j) ==> ActiveCovered(s', j)
    ensures OnlyCompensating(s, j) ==> OnlyCompensating(s', j)
    ensures AllSucceeded(s, j) ==> AllSucceeded(s', j)
  {
    if ActiveCovered(s, j) {
      forall t | t in s'.tasks && ActiveIn(s', j, t) && s'.tasks[t].kind.Process?
        ensures Covered(s', j, s'.tasks[t].node)
      {
        assert ActiveIn(s, j, t);
        var source :| source in s.tasks && Compensates(s, source, j, s.tasks[t].node);
        assert Compensates(s', source, j, s'.tasks[t].node);
      }
    }
  }

  lemma ElsewhereKeepsMarks(s: Store, s': Store, i: int, j: int, node: string)
    requires SameElsewhere(s, s', i) && j != i
    ensures Marked(s, j, node) ==> Marked(s', j, node)
    ensures NodeTaken(s, j, node) ==> NodeTaken(s', j, node)
  {
    if Marked(s, j, node) {
      var t :| t in s.tasks && MarkedBy(s, j, node, t);
      assert MarkedBy(s', j, node, t);
    }
  }

  lemma ElsewhereKeepsInstance(sys: Sys, sys': Sys, i: int, j: int)
    requires SysElsewhere(sys, sys', i) && j != i && j in sys.db.tickets && InstanceOk(sys, j)
    ensures InstanceOk(sys', j)
  {
    ElsewhereKeepsCoverage(sys.db, sys'.db, i, j, []);
    if j in sys.applied {
      forall n | n in sys.applied[j] ensures Marked(sys'.db, j, n) { ElsewhereKeepsMarks(sys.db, sys'.db, i, j, n); }
    }
  }

  lemma ElsewhereKeepsFlow(sys: Sys, sys': Sys, i: int, f: nat)
    requires SysElsewhere(sys, sys', i) && f in sys.flows && f in sys'.flows
    requires sys'.flows[f] == sys.flows[f] && sys.flows[f].instance != i && FlowOk(sys, f)
    ensures FlowOk(sys', f)
  {
    var flow := sys.flows[f];
    ElsewhereKeepsCoverage(sys.db, sys'.db, i, flow.instance, flow.plan);
    if flow.stage.Applying? {
      forall k | 0 <= k < flow.created ensures NodeTaken(sys'.db, flow.instance, flow.plan[k]) {
        ElsewhereKeepsMarks(sys.db, sys'.db, i, flow.instance, flow.plan[k]);
      }
    }
  }

  /** A step confined to one instance keeps the invariant if that instance and its flows stay in order. */
  lemma Assemble(sys: Sys, sys': Sys, i: int)
    requires Inv(sys) && SysElsewhere(sys, sys', i) && Consistent(sys'.db)
    requires i in sys'.db.tickets && InstanceOk(sys', i)
    requires forall f | f in sys'.flows && sys'.flows[f].instance == i :: FlowOk(sys', f)
    requires forall f | f in sys'.flows && sys'.flows[f].instance != i :: f in sys.flows && sys'.flows[f] == sys.flows[f]
    requires EarlyUnique(sys') && CompensationsKnown(sys') && sys'.applied.Keys <= sys'.revoked <= sys'.db.tickets.Keys
    ensures Inv(sys')
  {
    forall j | j in sys'.db.tickets ensures InstanceOk(sys', j) {
      if j != i {
        assert InstanceOk(sys, j);
        ElsewhereKeepsInstance(sys, sys', i, j);
      }
    }
    forall f | f in sys'.flows ensures FlowOk(sys', f) {
      if sys'.flows[f].instance != i {
        assert FlowOk(sys, f);
        ElsewhereKeepsFlow(sys, sys', i, f);
      }
    }
  }

  lemma PreparedCovers(s: Store, i: int)
    requires WithdrawalModel.Prepare(s, i).result.Ok? && forall t | t in s.tasks && s.tasks[t].instance == i :: s.tasks[t].kind.Process?
    ensures WithdrawalModel.Prepare(s, i).store == s.(tickets := s.tickets[i := Withdrawing])
    ensures ActiveCovered(WithdrawalModel.Prepare(s, i).store, i)
  {
    var s' := WithdrawalModel.Prepare(s, i).store;
    assert s'.tasks == s.tasks;
    forall t | t in s'.tasks && ActiveIn(s', i, t) ensures Covered(s', i, s'.tasks[t].node) {
      assert !Obstructs(s, i, t);
      var source :| source in s.tasks && Compensates(s, source, i, s.tasks[t].node);
      assert Compensates(s', source, i, s.tasks[t].node);
    }
  }

  lemma PreparedFlows(sys: Sys, f: nat, i: int)
    requires Inv(sys) && f !in sys.flows && WithdrawalModel.Prepare(sys.db, i).result.Ok? && i !in sys.revoked
    ensures var sys' := Next(sys, PrepareWithdrawal(f, i));
      && EarlyUnique(sys')
      && forall g | g in sys'.flows && sys'.flows[g].instance == i :: FlowOk(sys', g)
  {
    var sys' := Next(sys, PrepareWithdrawal(f, i));
    forall g | g in sys'.flows && sys'.flows[g].instance == i ensures FlowOk(sys', g) {
      if g != f { assert FlowOk(sys, g); }
    }
    forall g, h | g in sys'.flows && h in sys'.flows && sys'.flows[g].stage.Early()
      && sys'.flows[h].stage.Early() && SameRound(sys', g, h)
      ensures g == h
    {
      if g != f { assert FlowOk(sys, g); }
      if h != f { assert FlowOk(sys, h); }
      if g != f && h != f { assert SameRound(sys, g, h); }
    }
  }

  lemma PreparedShape(sys: Sys, f: nat, i: int)
    requires f !in sys.flows && WithdrawalModel.Prepare(sys.db, i).result.Ok?
    requires forall t | t in sys.db.tasks && sys.db.tasks[t].instance == i :: sys.db.tasks[t].kind.Process?
    ensures var sys' := Next(sys, PrepareWithdrawal(f, i));
      && sys'.db == sys.db.(tickets := sys.db.tickets[i := Withdrawing])
      && sys'.db == Run(sys.db, Transaction.Prepare(i))
      && (forall g | g in sys'.flows && sys'.flows[g].instance != i :: g in sys.flows && sys'.flows[g] == sys.flows[g])
      && sys'.revoked == sys.revoked && sys'.applied == sys.applied
      && SysElsewhere(sys, sys', i)
  {
    PreparedCovers(sys.db, i);
  }

  /** A ticket that can still be prepared was never applied to, so no task of it compensates. */
  lemma PreparedFresh(sys: Sys, i: int)
    requires Inv(sys) && HasStatus(sys.db, i, Processing)
    ensures i !in sys.revoked
    ensures forall t | t in sys.db.tasks && sys.db.tasks[t].instance == i :: sys.db.tasks[t].kind.Process?
  {
    assert InstanceOk(sys, i);
  }

  lemma PreparedInstance(sys: Sys, f: nat, i: int)
    requires Inv(sys) && f !in sys.flows && WithdrawalModel.Prepare(sys.db, i).result.Ok?
    ensures InstanceOk(Next(sys, PrepareWithdrawal(f, i)), i)
  {
    PreparedFresh(sys, i);
    PreparedShape(sys, f, i);
    PreparedCovers(sys.db, i);
  }

  lemma PrepareKeepsInv(sys: Sys, f: nat, i: int)
    requires Inv(sys)
    ensures Inv(Next(sys, PrepareWithdrawal(f, i)))
  {
    if f !in sys.flows && WithdrawalModel.Prepare(sys.db, i).result.Ok? {
      var sys' := Next(sys, PrepareWithdrawal(f, i));
      assert SysElsewhere(sys, sys', i) && CompensationsKnown(sys') by {
        PreparedFresh(sys, i);
        PreparedShape(sys, f, i);
      }
      assert InstanceOk(sys', i) by { PreparedInstance(sys, f, i); }
      assert Consistent(sys'.db) by {
        PreparedFresh(sys, i);
        PreparedShape(sys, f, i);
        StepKeepsConsistent(sys.db, Transaction.Prepare(i));
      }
      PreparedFresh(sys, i);
      PreparedFlows(sys, f, i);
      PreparedShape(sys, f, i);
      Assemble(sys, sys', i);
    }
  }

  function WithStatus(sys: Sys, i: int, status: TicketStatus): Sys {
    sys.(db := sys.db.(tickets := sys.db.tickets[i := status]))
  }

  /** The withdrawal of the instance is called off before the revocation, or complete. */
  ghost predicate MayEnd(sys: Sys, i: int, status: TicketStatus) {
    && HasStatus(sys.db, i, Withdrawing)
    && ((status.Processing? && i !in sys.revoked)
        || (status.Withdrawn? && i in sys.applied && AllSucceeded(sys.db, i)))
  }

  lemma TicketInstance(sys: Sys, i: int, status: TicketStatus)
    requires Inv(sys) && MayEnd(sys, i, status)
    ensures InstanceOk(WithStatus(sys, i, status), i)
  {
    var sys' := WithStatus(sys, i, status);
    assert InstanceOk(sys, i);
    if i in sys.applied {
      forall n | n in sys.applied[i] ensures Marked(sys'.db, i, n) {
        var t :| t in sys.db.tasks && MarkedBy(sys.db, i, n, t);
        assert MarkedBy(sys'.db, i, n, t);
      }
    }
  }

  lemma TicketFlow(sys: Sys, i: int, status: TicketStatus, g: nat)
    requires Inv(sys) && MayEnd(sys, i, status) && g in sys.flows && sys.flows[g].instance == i
    ensures FlowOk(WithStatus(sys, i, status), g)
  {
    assert FlowOk(sys, g);
  }

  /** A ticket status change of one instance, and nothing else in the database. */
  lemma TicketKeepsInv(sys: Sys, i: int, status: TicketStatus)
    requires Inv(sys) && MayEnd(sys, i, status)
    ensures Inv(WithStatus(sys, i, status))
  {
    var sys' := WithStatus(sys, i, status);
    assert KeepsShape(sys.db, sys'.db);
    ShapeKeepsConsistent(sys.db, sys'.db);
    TicketInstance(sys, i, status);
    forall g | g in sys'.flows && sys'.flows[g].instance == i ensures FlowOk(sys', g) { TicketFlow(sys, i, status, g); }
    EarlyKept(sys, sys');
    Assemble(sys, sys', i);
  }

  lemma EarlyKept(sys: Sys, sys': Sys)
    requires EarlyUnique(sys) && sys'.flows.Keys == sys.flows.Keys
    requires forall g | g in sys.flows ::
      && (sys'.flows[g].stage.Early() ==> sys.flows[g].stage.Early())
      && sys'.flows[g].instance == sys.flows[g].instance && sys'.flows[g].round == sys.flows[g].round
    ensures EarlyUnique(sys')
  {
    forall g, h | g in sys'.flows && h in sys'.flows && sys'.flows[g].stage.Early()
      && sys'.flows[h].stage.Early() && SameRound(sys', g, h)
      ensures g == h
    {
      assert SameRound(sys, g, h);
    }
  }

  lemma FinalizeKeepsInv(sys: Sys, f: nat)
    requires Inv(sys)
    ensures Inv(Next(sys, Finalize(f)))
  {
    if At(sys, f, Finalizing) {
      var i := sys.flows[f].instance;
      assert FlowOk(sys, f) && InstanceOk(sys, i);
      var mid := SetStage(sys, f, Done);
      FlowKeepsInv(sys, f, sys.flows[f].(stage := Done));
      if Next(sys, Finalize(f)).db != sys.db {
        assert forall t | t in sys.db.tasks :: !Unfinished(sys.db, i, t);
        TicketKeepsInv(mid, i, Withdrawn);
      }
    }
  }

  lemma FlowRollsBack(sys: Sys, f: nat)
    requires Inv(sys) && At(sys, f, RollingBack) && InOwnRound(sys, RollBack(f))
    ensures Inv(Next(sys, RollBack(f)))
  {
    var i := sys.flows[f].instance;
    assert FlowOk(sys, f);
    FlowKeepsInv(sys, f, sys.flows[f].(stage := Done));
    if HasStatus(sys.db, i, Withdrawing) { TicketKeepsInv(SetStage(sys, f, Done), i, Processing); }
  }

  lemma RollBackKeepsInv(sys: Sys, e: Event)
    requires Inv(sys) && (e.RollBack? || e.RecoverActive?) && InOwnRound(sys, e)
    ensures Inv(Next(sys, e))
  {
    match e
    case RollBack(f) => if At(sys, f, RollingBack) { FlowRollsBack(sys, f); }
    case RecoverActive(i) =>
      if i !in sys.revoked && HasStatus(sys.db, i, Withdrawing) { TicketKeepsInv(sys, i, Processing); }
    case _ =>
  }

  /** After a plan is activated everything that still executes is a compensation if and only if the plan names the
      node of every ordinary task that was executing. */
  lemma ActivationCovers(s: Store, i: int, plan: seq<string>, now: int)
    requires i in s.tickets && s.tickets[i].Withdrawing?
    ensures OnlyCompensating(ActivateCompensations(s, i, plan, now).store, i) <==> PlanCovers(s, i, plan)
  {
    var s' := ActivateCompensations(s, i, plan, now).store;
    if PlanCovers(s, i, plan) {
      forall t | t in s'.tasks && ActiveIn(s', i, t) ensures s'.tasks[t].kind.Compensation? {
        assert ActiveIn(s, i, t);
      }
    }
    if OnlyCompensating(s', i) {
      forall t | t in s.tasks && ActiveIn(s, i, t) && s.tasks[t].kind.Process? ensures s.tasks[t].node in plan {
        assert ActiveIn(s', i, t);
      }
    }
  }

  lemma ActivationMarks(s: Store, i: int, plan: seq<string>, now: int, node: string)
    requires i in s.tickets && s.tickets[i].Withdrawing?
    ensures var s' := ActivateCompensations(s, i, plan, now).store;
      (Marked(s, i, node) || (node in plan && NodeTaken(s, i, node))) ==> Marked(s', i, node)
  {
    var s' := ActivateCompensations(s, i, plan, now).store;
    if Marked(s, i, node) {
      var t :| t in s.tasks && MarkedBy(s, i, node, t);
      assert MarkedBy(s', i, node, t);
    } else if node in plan && NodeTaken(s, i, node) {
      var t :| t in s.tasks && s.tasks[t].instance == i && s.tasks[t].node == node;
      assert MarkedBy(s', i, node, t);
    }
  }

  lemma ActivateKeepsInv(sys: Sys, f: nat, now: int)
    requires Inv(sys)
    ensures Inv(Next(sys, ActivatePlan(f, now)))
  {
    if At(sys, f, Applying) && sys.flows[f].created >= |sys.flows[f].plan| {
      var flow := sys.flows[f];
      var i := flow.instance;
      assert FlowOk(sys, f) && InstanceOk(sys, i);
      if HasStatus(sys.db, i, Withdrawn) {
        FlowKeepsInv(sys, f, flow.(stage := Finalizing));
      } else {
        ActivateWithdrawing(sys, f, now);
      }
    }
  }

  lemma ActivatedInstance(sys: Sys, f: nat, now: int)
    requires Inv(sys) && At(sys, f, Applying) && sys.flows[f].created >= |sys.flows[f].plan|
    requires HasStatus(sys.db, sys.flows[f].instance, Withdrawing)
    ensures InstanceOk(Next(sys, ActivatePlan(f, now)), sys.flows[f].instance)
  {
    var flow := sys.flows[f];
    var i := flow.instance;
    var sys' := Next(sys, ActivatePlan(f, now));
    assert FlowOk(sys, f) && InstanceOk(sys, i);
    ActivationCovers(sys.db, i, flow.plan, now);
    forall n | n in sys'.applied[i] ensures Marked(sys'.db, i, n) {
      if n in flow.plan {
        var k :| 0 <= k < |flow.plan| && flow.plan[k] == n;
        assert NodeTaken(sys.db, i, n);
      }
      ActivationMarks(sys.db, i, flow.plan, now, n);
    }
  }

  lemma ActivationKeepsNodes(s: Store, i: int, plan: seq<string>, now: int, node: string)
    requires NodeTaken(s, i, node)
    ensures NodeTaken(ActivateCompensations(s, i, plan, now).store, i, node)
  {
    var s' := ActivateCompensations(s, i, plan, now).store;
    var t :| t in s.tasks && s.tasks[t].instance == i && s.tasks[t].node == node;
    assert s'.tasks[t].instance == i && s'.tasks[t].node == node;
  }

  lemma ActivatedFlow(sys: Sys, f: nat, now: int, g: nat)
    requires Inv(sys) && At(sys, f, Applying) && sys.flows[f].created >= |sys.flows[f].plan|
    requires HasStatus(sys.db, sys.flows[f].instance, Withdrawing)
    requires g in sys.flows && sys.flows[g].instance == sys.flows[f].instance
    ensures FlowOk(Next(sys, ActivatePlan(f, now)), g)
  {
    var i := sys.flows[f].instance;
    var sys' := Next(sys, ActivatePlan(f, now));
    assert FlowOk(sys, f) && FlowOk(sys, g);
    ActivationCovers(sys.db, i, sys.flows[f].plan, now);
    if g != f && sys.flows[g].stage.Applying? {
      forall k | 0 <= k < sys.flows[g].created ensures NodeTaken(sys'.db, i, sys.flows[g].plan[k]) {
        ActivationKeepsNodes(sys.db, i, sys.flows[f].plan, now, sys.flows[g].plan[k]);
      }
    }
  }

  lemma ActivatedShape(sys: Sys, f: nat, now: int)
    requires At(sys, f, Applying) && sys.flows[f].created >= |sys.flows[f].plan|
    requires HasStatus(sys.db, sys.flows[f].instance, Withdrawing)
    ensures var sys' := Next(sys, ActivatePlan(f, now));
      var i := sys.flows[f].instance;
      && sys'.db == Run(sys.db, Transaction.Activate(i, sys.flows[f].plan, now))
      && SysElsewhere(sys, sys', i)
      && sys'.revoked == sys.revoked && sys'.applied.Keys == sys.applied.Keys + {i}
      && sys'.flows == sys.flows[f := sys.flows[f].(stage := Finalizing)]
  {
  }

  lemma ActivateWithdrawing(sys: Sys, f: nat, now: int)
    requires Inv(sys) && At(sys, f, Applying) && sys.flows[f].created >= |sys.flows[f].plan|
    requires HasStatus(sys.db, sys.flows[f].instance, Withdrawing)
    ensures Inv(Next(sys, ActivatePlan(f, now)))
  {
    var i := sys.flows[f].instance;
    var sys' := Next(sys, ActivatePlan(f, now));
    ActivatedShape(sys, f, now);
    assert Consistent(sys'.db) by { StepKeepsConsistent(sys.db, Transaction.Activate(i, sys.flows[f].plan, now)); }
    assert InstanceOk(sys', i) by { ActivatedInstance(sys, f, now); }
    ActivatedFlows(sys, f, now);
    ActivatedKnown(sys, f, now);
    Assemble(sys, sys', i);
  }

  lemma ActivatedFlows(sys: Sys, f: nat, now: int)
    requires Inv(sys) && At(sys, f, Applying) && sys.flows[f].created >= |sys.flows[f].plan|
    requires HasStatus(sys.db, sys.flows[f].instance, Withdrawing)
    ensures var sys', i := Next(sys, ActivatePlan(f, now)), sys.flows[f].instance;
      EarlyUnique(sys') && forall g | g in sys'.flows && sys'.flows[g].instance == i :: FlowOk(sys', g)
  {
    var sys', i := Next(sys, ActivatePlan(f, now)), sys.flows[f].instance;
    ActivatedShape(sys, f, now);
    forall g | g in sys'.flows && sys'.flows[g].instance == i ensures FlowOk(sys', g) {
      ActivatedFlow(sys, f, now, g);
    }
    EarlyKept(sys, sys');
  }

  lemma ActivatedKnown(sys: Sys, f: nat, now: int)
    requires Inv(sys) && At(sys, f, Applying) && sys.flows[f].created >= |sys.flows[f].plan|
    requires HasStatus(sys.db, sys.flows[f].instance, Withdrawing)
    ensures CompensationsKnown(Next(sys, ActivatePlan(f, now))) && sys.flows[f].instance in sys.revoked
  {
    assert FlowOk(sys, f);
    ActivatedShape(sys, f, now);
  }

  lemma NextKeepsInv(sys: Sys, e: Event)
    requires Inv(sys) && InOwnRound(sys, e)
    ensures Inv(Next(sys, e))
  {
    match e
    case Local(step) => LocalKeepsInv(sys, step);
    case PrepareWithdrawal(f, i) => PrepareKeepsInv(sys, f, i);
    case BuildPlan(f, order) => BuildKeepsInv(sys, f, order);
    case RevokeEngine(f, fails) => RevokeKeepsInv(sys, f, fails);
    case CreateTarget(f, id, comp, at, blocked) => CreateTargetKeepsInv(sys, f, id, comp, at, blocked);
    case ActivatePlan(f, now) => ActivateKeepsInv(sys, f, now);
    case Finalize(f) => FinalizeKeepsInv(sys, f);
    case RollBack(_) => RollBackKeepsInv(sys, e);
    case RecoverActive(_) => RollBackKeepsInv(sys, e);
    case FailPlan(_) => StageKeepsInv(sys, e);
    case Recover(_, _) => StageKeepsInv(sys, e);
    case ObserveCompletion(_, _) => StageKeepsInv(sys, e);
  }

  lemma {:induction false} PlayKeepsInv(sys: Sys, events: seq<Event>)
    requires Inv(sys) && Disciplined(sys, events)
    ensures Inv(Play(sys, events))
    decreases |events|
  {
    if events != [] {
      NextKeepsInv(sys, events[0]);
      PlayKeepsInv(Next(sys, events[0]), events[1..]);
    }
  }
}
