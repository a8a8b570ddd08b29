/** What each operation of the flow engine answers, and the state it leaves, from the state before it: refusals included. */
module FlowResults {
  import opened Prelude
  import opened Graphs
  import opened FlowPlan
  import opened FlowTrace
  import opened FlowJoin
  import opened FlowSnapshot
  import opened FlowEffects
  import opened FlowHistory
  import opened FlowRun

  // ---------------------------------------------------------------- start

  /** Without a named start node nothing starts; else the step out of it is taken in batch 1, and kept unless it fails. */
  ghost predicate StartResult(plan: ExecutionPlan, env: Environment, initial: Variables, depth: nat, b: Snapshot,
                              error: Option<EngineError>)
    requires Indexed(plan)
  {
    if !Named(plan.start) then error == Some(NoStartNode) && b == NEW
    else
      var begun := Snapshot([], InstanceStatus.Running, plan.start.value.id, initial, 0);
      Kept(MoveOn(plan, env, begun, plan.start.value.id, 1, depth), NEW, b, error)
  }

  /** The state moved to is kept, unless there was an error. */
  ghost predicate Kept(m: Moved, a: Snapshot, b: Snapshot, error: Option<EngineError>) {
    error == m.error && b == if m.error == None then m.state else a
  }

  // ---------------------------------------------------------------- pass

  /** A refusal leaves everything; else the task is settled, and if its node is satisfied the step out of it is taken within
      the batch, and all of it kept unless the step fails. */
  ghost predicate PassResult(plan: ExecutionPlan, env: Environment, a: Snapshot, id: nat, operator: string, patch: Variables,
                             depth: nat, b: Snapshot, error: Option<EngineError>)
    requires Indexed(plan)
  {
    if exists e :: Refuses(a, id, operator, e) then error.Some? && Refuses(a, id, operator, error.value) && b == a
    else exists i: nat :: i < |a.tasks| && MayAct(a.tasks[i], id, operator) && PassedAt(plan, env, a, i, patch, depth, b, error)
  }

  ghost predicate PassedAt(plan: ExecutionPlan, env: Environment, a: Snapshot, i: nat, patch: Variables, depth: nat, b: Snapshot,
                           error: Option<EngineError>)
    requires Indexed(plan) && i < |a.tasks|
  {
    if a.tasks[i].node !in plan.nodes then error == Some(NodeMissing) && b == a
    else exists settled :: SettledBy(plan, a, settled, i, patch) && GoesOn(plan, env, a, settled, i, depth, b, error)
  }

  /** What becomes of the tasks there were: see `Settles`. New ones may follow. */
  ghost predicate RowsPassed(plan: ExecutionPlan, a: seq<FlowTask>, b: seq<FlowTask>, i: nat) {
    i < |a| <= |b| && a[i].node in plan.nodes && Settles(a, b[..|a|], i, plan.nodes[a[i].node].sign)
  }

  ghost predicate SettledBy(plan: ExecutionPlan, a: Snapshot, settled: Snapshot, i: nat, patch: Variables)
    requires i < |a.tasks| && a.tasks[i].node in plan.nodes
  {
    && settled == a.(tasks := settled.tasks, variables := a.variables + patch)
    && Settles(a.tasks, settled.tasks, i, plan.nodes[a.tasks[i].node].sign)
  }

  ghost predicate GoesOn(plan: ExecutionPlan, env: Environment, a: Snapshot, settled: Snapshot, i: nat, depth: nat, b: Snapshot,
                         error: Option<EngineError>)
    requires Indexed(plan) && i < |a.tasks| && a.tasks[i].node in plan.nodes
  {
    if Suffice(a.tasks, i, plan.nodes[a.tasks[i].node].sign)
    then Kept(MoveOn(plan, env, settled, a.tasks[i].node, a.tasks[i].batch, depth), a, b, error)
    else error == None && b == settled
  }

  // ---------------------------------------------------------------- reject

  /** Where a rejection falls back to: nowhere if it terminates the instance; the chosen node if that is an approval or a
      start; else what the trail of deciding gateways leads to, if anything. */
  ghost predicate FallsBack(plan: ExecutionPlan, from: string, target: string, terminate: bool,
                            r: Result<Option<NodeSpec>, EngineError>)
    requires Indexed(plan)
  {
    if terminate then r == Ok(None)
    else if target == "" then r.Ok? && exists p :: TrailTo(plan, from, p, r.value)
    else if target in plan.nodes && (plan.nodes[target].kind == Approval || plan.nodes[target].kind == NodeType.Start)
    then r == Ok(Some(plan.nodes[target])) else r == Err(InvalidTarget)
  }

  ghost predicate RejectResult(plan: ExecutionPlan, env: Environment, starter: string, a: Snapshot, id: nat, target: string,
                               terminate: bool, b: Snapshot, error: Option<EngineError>)
    requires Indexed(plan)
  {
    if exists e :: Refuses(a, id, "", e) then error.Some? && Refuses(a, id, "", error.value) && b == a
    else exists i: nat :: i < |a.tasks| && MayAct(a.tasks[i], id, "") && RejectedAt(plan, env, starter, a, i, target, terminate, b, error)
  }

  ghost predicate RejectedAt(plan: ExecutionPlan, env: Environment, starter: string, a: Snapshot, i: nat, target: string,
                             terminate: bool, b: Snapshot, error: Option<EngineError>)
    requires Indexed(plan) && i < |a.tasks|
  {
    if a.tasks[i].node !in plan.nodes then error == Some(NodeMissing) && b == a
    else exists r :: FallsBack(plan, a.tasks[i].node, target, terminate, r) && SentBack(env, starter, a, i, r, b, error)
  }

  /** What becomes of the tasks there were: see `Sweeps`. New ones may follow. */
  ghost predicate RowsRejected(a: seq<FlowTask>, b: seq<FlowTask>, i: nat) {
    i < |a| <= |b| && Sweeps(a, b[..|a|], i)
  }

  /** Turned down without a target; else the target, if somebody is there to act, waits in the next batch. */
  ghost predicate SentBack(env: Environment, starter: string, a: Snapshot, i: nat, r: Result<Option<NodeSpec>, EngineError>,
                           b: Snapshot, error: Option<EngineError>)
    requires i < |a.tasks|
  {
    match r
    case Err(e) => error == Some(e) && b == a
    case Ok(None) => error == None && b == a.(tasks := b.tasks, status := Turned) && Sweeps(a.tasks, b.tasks, i)
    case Ok(Some(n)) =>
      if n.kind == NodeType.Start then error == None && ReopensFor(a, b, i, n.id, OneVote, [starter])
      else match env.assignees(n.id, a.variables)
        case None => error == Some(HookFailed) && b == a
        case Some(people) =>
          if people == [] then error == Some(NoAssignees) && b == a
          else error == None && ReopensFor(a, b, i, n.id, n.sign, people)
  }

  /** The batch is swept, and each of these people has one pending task at the node in the next batch. */
  ghost predicate ReopensFor(a: Snapshot, b: Snapshot, i: nat, node: string, sign: SignRule, people: seq<string>)
    requires i < |a.tasks|
  {
    exists swept :: ReopensFrom(a, swept, b, i, node, sign, people)
  }

  ghost predicate ReopensFrom(a: Snapshot, swept: Snapshot, b: Snapshot, i: nat, node: string, sign: SignRule, people: seq<string>)
    requires i < |a.tasks|
  {
    && swept == a.(tasks := swept.tasks) && Sweeps(a.tasks, swept.tasks, i)
    && Opens(swept, b, node, sign, a.tasks[i].batch + 1, people, Pending)
    && b == swept.(tasks := b.tasks, nextId := b.nextId, currentNode := node)
  }

  // ---------------------------------------------------------------- revoke

  ghost predicate RevokeResult(plan: ExecutionPlan, starter: string, a: Snapshot, operator: string, backToStarter: bool,
                               b: Snapshot, error: Option<EngineError>)
  {
    if a.status != InstanceStatus.Running then error == Some(NotRunning) && b == a
    else if operator != "" && operator != starter then error == Some(Unauthorized) && b == a
    else if backToStarter && !Named(plan.start) then error == Some(NoStartNode) && b == a
    else if backToStarter then error == None && exists swept, top :: RestartsFrom(a, swept, b, plan.start.value.id, starter, top)
    else error == None && b == a.(tasks := b.tasks, status := Withdrawn) && Cancels(a.tasks, b.tasks)
  }

  /** The highest batch code, at least 1. */
  ghost predicate IsTopBatch(tasks: seq<FlowTask>, top: int) {
    && top >= 1 && (forall k | 0 <= k < |tasks| :: tasks[k].batch <= top)
    && (top == 1 || exists k :: 0 <= k < |tasks| && tasks[k].batch == top)
  }

  /** All pending tasks are cancelled, and the starter has one pending task above all batches. */
  ghost predicate RestartsFrom(a: Snapshot, swept: Snapshot, b: Snapshot, start: string, starter: string, top: int) {
    && swept == a.(tasks := swept.tasks) && Cancels(a.tasks, swept.tasks) && IsTopBatch(a.tasks, top)
    && Opens(swept, b, start, OneVote, top + 1, [starter], Pending)
    && b == swept.(tasks := b.tasks, nextId := b.nextId, currentNode := start)
  }

  // ---------------------------------------------------------------- what the engine's steps give

  lemma SettledResult(plan: ExecutionPlan, env: Environment, a: Snapshot, i: nat, patch: Variables, depth: nat, b: Snapshot,
                      error: Option<EngineError>)
    requires Indexed(plan) && i < |a.tasks| && DistinctTasks(a.tasks) && a.tasks[i].node in plan.nodes
    requires var node := plan.nodes[a.tasks[i].node];
      var settled := a.(tasks := AfterPass(a.tasks, i, node), variables := a.variables + patch);
      if Arbitrated(node, Decide(a.tasks, i, Passed), i)
      then Kept(MoveOn(plan, env, settled, a.tasks[i].node, a.tasks[i].batch, depth), a, b, error)
      else error == None && b == settled
    ensures PassedAt(plan, env, a, i, patch, depth, b, error)
  {
    var node := plan.nodes[a.tasks[i].node];
    var settled := a.(tasks := AfterPass(a.tasks, i, node), variables := a.variables + patch);
    PassSettles(a.tasks, i, node);
    ArbitrationByRule(node, a.tasks, i);
    SameVotes(a.tasks, i, node.sign);
    assert SettledBy(plan, a, settled, i, patch) && GoesOn(plan, env, a, settled, i, depth, b, error);
  }

  lemma SameVotes(tasks: seq<FlowTask>, i: nat, sign: SignRule)
    requires i < |tasks|
    ensures Suffice(tasks, i, sign) <==>
      sign.OneVote? || forall k | 0 <= k < |tasks| && k != i && SameTurn(tasks[i], tasks[k]) :: tasks[k].status.Passed?
  {
    forall k | 0 <= k < |tasks|
      ensures SameTurn(tasks[i], tasks[k]) <==> tasks[k].node == tasks[i].node && tasks[k].batch == tasks[i].batch
    {
    }
  }

  lemma RejectFallsBack(plan: ExecutionPlan, from: string, target: string, terminate: bool)
    requires Indexed(plan) && GatewaysAcyclic(plan)
    ensures FallsBack(plan, from, target, terminate, RejectTarget(plan, from, target, terminate))
  {
    AcyclicEnds(Back(plan), from);
    DecidedWithin(plan, from);
    UpstreamExactly(plan, from, UpstreamApproval(plan, from));
  }

  lemma RejectionResult(env: Environment, starter: string, a: Snapshot, i: nat, back: Option<NodeSpec>)
    requires i < |a.tasks| && DistinctTasks(a.tasks)
    requires back.Some? && !back.value.kind.Start? ==> ApprovalError(env, back.value.id, a.variables).None?
    ensures SentBack(env, starter, a, i, Ok(back), AfterRejection(env, starter, a, i, back), None)
  {
    var swept, b := a.(tasks := AfterReject(a.tasks, i)), AfterRejection(env, starter, a, i, back);
    RejectSweeps(a.tasks, i);
    if back.Some? {
      var n := back.value;
      if n.kind.Start? {
        assert ReopensFrom(a, swept, b, i, n.id, OneVote, [starter]);
      } else {
        assert ReopensFrom(a, swept, b, i, n.id, n.sign, env.assignees(n.id, a.variables).value);
      }
    }
  }

  lemma RevocationResult(plan: ExecutionPlan, starter: string, a: Snapshot, operator: string, backToStarter: bool)
    requires a.status.Running? && (operator == "" || operator == starter) && (backToStarter ==> Named(plan.start))
    ensures RevokeResult(plan, starter, a, operator, backToStarter, AfterRevocation(plan, starter, a, backToStarter), None)
  {
    var swept, b := a.(tasks := AfterRevoke(a.tasks)), AfterRevocation(plan, starter, a, backToStarter);
    RevokeCancels(a.tasks);
    if backToStarter {
      assert RestartsFrom(a, swept, b, plan.start.value.id, starter, MaxBatchCode(a.tasks));
    }
  }

  lemma PassedHere(plan: ExecutionPlan, env: Environment, a: Snapshot, i: nat, id: nat, operator: string, patch: Variables,
                   depth: nat, b: Snapshot, error: Option<EngineError>)
    requires Indexed(plan) && i < |a.tasks| && MayAct(a.tasks[i], id, operator) && Guard(a, id, operator).None?
    requires DistinctTasks(a.tasks)
    requires PassedAt(plan, env, a, i, patch, depth, if error.Some? then a else b, error)
    ensures PassResult(plan, env, a, id, operator, patch, depth, if error.Some? then a else b, error)
  {
    GuardRefuses(a, id, operator);
  }

  lemma RejectedHere(plan: ExecutionPlan, env: Environment, starter: string, a: Snapshot, i: nat, id: nat, target: string,
                     terminate: bool, b: Snapshot, error: Option<EngineError>)
    requires Indexed(plan) && i < |a.tasks| && MayAct(a.tasks[i], id, "") && Guard(a, id, "").None? && DistinctTasks(a.tasks)
    requires RejectedAt(plan, env, starter, a, i, target, terminate, if error.Some? then a else b, error)
    ensures RejectResult(plan, env, starter, a, id, target, terminate, if error.Some? then a else b, error)
  {
    GuardRefuses(a, id, "");
  }
}
