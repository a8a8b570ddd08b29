/** The flow engine on one instance: start, pass, complete, reject, revoke. */
module FlowEngine {
  import opened Prelude
  import opened Graphs
  import opened FlowPlan
  import opened FlowTransition
  import opened FlowStep
  import opened FlowTrace
  import opened FlowJoin
  import opened FlowSnapshot
  import opened FlowEffects
  import opened FlowHistory
  import opened FlowDepth
  import opened FlowRun
  import opened FlowResults

  class FlowInstance {
    const plan: ExecutionPlan
    const env: Environment
    const starter: string
    var tasks: seq<FlowTask>
    var status: InstanceStatus
    var currentNode: string
    var variables: Variables
    var nextId: nat

    function State(): Snapshot
      reads this
    {
      Snapshot(tasks, status, currentNode, variables, nextId)
    }

    function Runs(): Setting { Setting(plan, env, starter) }

    /** The instance has come to its state by operations from a new one. */
    ghost predicate Valid()
      reads this
    {
      Usable(Runs()) && Reachable(Runs(), State())
    }

    /** A new instance of a valid definition whose gateways form no ring. */
    constructor (def: Definition, parse: string -> Option<string>, env: Environment, starter: string)
      requires ValidDefinition(def) && NoGatewayRing(def)
      ensures Valid() && Compiles(plan, def, parse) && this.env == env && this.starter == starter && State() == NEW
    {
      var compiled := NewExecutionPlan(def, parse);
      CompiledIsIndexed(compiled, def, parse);
      RingsCompiled(compiled, def, parse);
      NewReachable(Setting(compiled, env, starter));
      plan, this.env, this.starter := compiled, env, starter;
      tasks, status, currentNode, variables, nextId := [], Running, "", map[], 0;
    }

    method Restore(s: Snapshot)
      modifies this
      ensures State() == s
    {
      tasks, status, currentNode, variables, nextId := s.tasks, s.status, s.currentNode, s.variables, s.nextId;
    }

    // -------------------------------------------------------------- moving on within a batch

    /** Adds one task per person. */
    method SaveTasks(node: string, sign: SignRule, batch: int, people: seq<string>, as_: TaskStatus)
      modifies this
      ensures State() == Added(old(State()), node, sign, batch, people, as_)
    {
      tasks := tasks + MakeTasks(node, sign, batch, people, as_, nextId);
      nextId := nextId + |people|;
    }

    /** The gateways whose joins are open for the tasks so far. */
    method OpenJoins() returns (open: set<string>)
      requires Usable(Runs())
      ensures open == Open(plan, tasks)
    {
      open := {};
      var rest := plan.nodes.Keys;
      while rest != {}
        invariant rest <= plan.nodes.Keys
        invariant forall v :: v in open <==> v in plan.nodes && v !in rest && JoinOpen(plan, plan.nodes[v], tasks)
      {
        var v :| v in rest;
        AcyclicEnds(Back(plan), plan.nodes[v].id);
        var ok := IsJoinSatisfied(plan, plan.nodes[v], tasks);
        if ok {
          open := open + {v};
        }
        rest := rest - {v};
      }
    }

    /** The step decision out of a node, for the current variables and tasks. */
    method Resolve(id: string) returns (r: Result<Decision, FlowError>)
      requires Usable(Runs())
      ensures r == StepOut(plan, env, State(), id)
    {
      var joins := OpenJoins();
      r := ResolveNextStep(plan, id, RulesWith(env, variables), IsIn(joins));
    }

    /** Records the skipped branches, then waits, fails or activates the ready nodes; see `FlowRun.ApplyFacts`. */
    method Apply(d: Decision, batch: int, fuel: nat) returns (error: Option<EngineError>)
      requires Usable(Runs())
      modifies this
      ensures Moved(State(), error) == FlowRun.Apply(plan, env, old(State()), d, batch, fuel)
      decreases fuel, 4
    {
      RecordSkips(d.skipped, batch);
      if d.blocked {
        return None;
      }
      if d.ready == [] {
        return Some(NoAvailablePath);
      }
      error := Activate(d.ready, batch, fuel);
    }

    method RecordSkips(nodes: seq<NodeSpec>, batch: int)
      modifies this
      ensures State() == SkipsAdded(old(State()), nodes, batch)
    {
      for k := 0 to |nodes|
        invariant State() == SkipsAdded(old(State()), nodes[..k], batch)
      {
        assert nodes[..k + 1][..k] == nodes[..k];
        SaveTasks(nodes[k].id, nodes[k].sign, batch, ["system"], Skipped);
      }
      assert nodes[..|nodes|] == nodes;
    }

    /** Activates nodes in order; an end node finishes the instance unless an approval is among them; see
        `FlowRun.ActivateFacts`. */
    method Activate(nodes: seq<NodeSpec>, batch: int, fuel: nat) returns (error: Option<EngineError>)
      requires Usable(Runs())
      modifies this
      ensures Moved(State(), error) == FlowRun.Activate(plan, env, old(State()), nodes, HasApproval(nodes), batch, fuel)
      decreases fuel, 3
    {
      ghost var before := State();
      var hasActive := exists n | n in nodes :: n.IsWaitState();
      ApprovalsAreWaited(nodes);
      for k := 0 to |nodes|
        invariant Moved(State(), None) == FlowRun.Activate(plan, env, before, nodes[..k], hasActive, batch, fuel)
      {
        assert nodes[..k + 1][..k] == nodes[..k];
        error := Enter(nodes[k], hasActive, batch, fuel);
        if error.Some? {
          ErrorEnds(plan, env, before, nodes, hasActive, batch, fuel, k + 1);
          return;
        }
      }
      assert nodes[..|nodes|] == nodes;
      error := None;
    }

    /** Makes the node current and runs it; an end node finishes the instance if nothing waits beside it. */
    method Enter(node: NodeSpec, hasActive: bool, batch: int, fuel: nat) returns (error: Option<EngineError>)
      requires Usable(Runs())
      modifies this
      ensures Moved(State(), error) == FlowRun.Enter(plan, env, old(State()), node, hasActive, batch, fuel)
      decreases fuel, 2, 1
    {
      currentNode := node.id;
      if node.kind.End? {
        if !hasActive {
          status := Finished;
        }
        return None;
      }
      error := Execute(node, hasActive, batch, fuel);
    }

    method Execute(node: NodeSpec, ghost hasActive: bool, batch: int, fuel: nat) returns (error: Option<EngineError>)
      requires Usable(Runs()) && !node.kind.End? && currentNode == node.id
      modifies this
      ensures Moved(State(), error) == FlowRun.Enter(plan, env, old(State()), node, hasActive, batch, fuel)
      decreases fuel, 2, 0
    {
      assert State() == State().(currentNode := node.id);
      match node.kind {
        case Approval => error := ExecuteApproval(node, batch);
        case CarbonCopy => error := ExecuteCarbonCopy(node, hasActive, batch, fuel);
        case Automatic => error := ExecuteTask(node, hasActive, batch, fuel);
        case _ => error := Some(UnsupportedNode);
      }
    }

    /** One pending task per assignee; an approval without assignees is an error. */
    method ExecuteApproval(node: NodeSpec, batch: int) returns (error: Option<EngineError>)
      modifies this
      ensures Stays(Moved(State(), error)) == AtApproval(old(State()), node, env.assignees(node.id, old(variables)), batch)
      ensures error == match env.assignees(node.id, old(variables))
        case None => Some(HookFailed)
        case Some(people) => if people == [] then Some(NoAssignees) else None
      ensures if error.None? then
          Opens(old(State()), State(), node.id, node.sign, batch, env.assignees(node.id, old(variables)).value, Pending)
        else State() == old(State())
    {
      var people := env.assignees(node.id, variables);
      if people.None? {
        return Some(HookFailed);
      }
      if people.value == [] {
        return Some(NoAssignees);
      }
      SaveTasks(node.id, node.sign, batch, people.value, Pending);
      error := None;
    }

    /** Records the copies as passed and moves on at once. */
    method ExecuteCarbonCopy(node: NodeSpec, ghost hasActive: bool, batch: int, fuel: nat) returns (error: Option<EngineError>)
      requires Usable(Runs()) && node.kind.CarbonCopy? && currentNode == node.id
      modifies this
      ensures Moved(State(), error) == FlowRun.Enter(plan, env, old(State()), node, hasActive, batch, fuel)
      decreases fuel, 1
    {
      assert State() == State().(currentNode := node.id);
      var people := env.assignees(node.id, variables);
      if people.None? {
        return Some(HookFailed);
      }
      SaveTasks(node.id, node.sign, batch, people.value, Passed);
      error := MoveOn(node.id, batch, fuel);
    }

    /** Runs the worker: suspended work stays pending, finished work passes and moves on at once. */
    method ExecuteTask(node: NodeSpec, ghost hasActive: bool, batch: int, fuel: nat) returns (error: Option<EngineError>)
      requires Usable(Runs()) && node.kind.Automatic? && currentNode == node.id
      modifies this
      ensures Moved(State(), error) == FlowRun.Enter(plan, env, old(State()), node, hasActive, batch, fuel)
      decreases fuel, 1
    {
      assert State() == State().(currentNode := node.id);
      match env.worker(node.id, variables) {
        case NotRegistered => return Some(NoWorker);
        case Failed => return Some(WorkerFailed);
        case Suspended =>
          SaveTasks(node.id, node.sign, batch, ["system"], Pending);
          return None;
        case Completed(patch) =>
          SaveTasks(node.id, node.sign, batch, ["system"], Passed);
          variables := variables + patch;
          error := MoveOn(node.id, batch, fuel);
      }
    }

    /** Resolves the step out of a node and applies it. How far this may lead through nodes at which the engine does not
        stop is limited by `fuel`, which the original does not have: it makes no difference where no ring of such nodes
        lies ahead and it exceeds what does, and is always used up where only copies that lead to each other do; see
        `FlowRun.StepFacts`. */
    method MoveOn(id: string, batch: int, fuel: nat) returns (error: Option<EngineError>)
      requires Usable(Runs())
      modifies this
      ensures Moved(State(), error) == FlowRun.MoveOn(plan, env, old(State()), id, batch, fuel)
      decreases fuel, 0
    {
      var d := Resolve(id);
      if d.Err? {
        return Some(Routing(d.error));
      }
      if fuel == 0 {
        return Some(TooDeep);
      }
      error := Apply(d.value, batch, fuel - 1);
    }

    // -------------------------------------------------------------- the operations

    function IndexOfTask(id: nat): (i: int)
      reads this
      ensures -1 <= i < |tasks|
      ensures if i < 0 then forall k | 0 <= k < |tasks| :: tasks[k].id != id else tasks[i].id == id
    {
      FindTask(tasks, id)
    }

    /** Starts the instance; without a usable way out of the start node nothing is kept. */
    method Start(initial: Variables, fuel: nat) returns (error: Option<EngineError>)
      requires Valid() && State() == NEW
      modifies this
      ensures Valid()
      ensures StartResult(plan, env, initial, fuel, State(), error)
      ensures error.None? ==> Takes(Runs(), Operation.Start(initial), NEW, State())
      ensures Named(plan.start) && Suffices(plan, plan.start.value.id, fuel) ==> error != Some(TooDeep)
      ensures Named(plan.start) && Trapped(plan, env, plan.start.value.id) ==> error == Some(TooDeep)
    {
      if plan.start.None? || plan.start.value.id == "" {
        return Some(NoStartNode);
      }
      variables := initial;
      currentNode := plan.start.value.id;
      StepFacts(plan, env, State(), plan.start.value.id, 1, fuel);
      error := MoveOn(plan.start.value.id, 1, fuel);
      if error.Some? {
        Restore(NEW);
      } else {
        Started(Runs(), initial, State());
      }
    }

    /** The guards shared by pass, complete and reject. */
    method LoadTask(id: nat, operator: string) returns (error: Option<EngineError>, i: nat)
      ensures error == Guard(State(), id, operator)
      ensures error.None? ==> i < |tasks| && tasks[i].id == id && tasks[i].status.Pending? && status == Running
    {
      var k := IndexOfTask(id);
      if k < 0 {
        return Some(TaskMissing), 0;
      }
      i := k;
      if !tasks[i].status.Pending? {
        return Some(TaskNotPending), i;
      }
      if operator != "" && tasks[i].assignee != operator {
        return Some(Unauthorized), i;
      }
      if status != Running {
        return Some(NotRunning), i;
      }
      error := None;
    }

    /** An assignee passes a task; an empty operator is a worker's callback. */
    method Pass(id: nat, operator: string, patch: Variables, fuel: nat) returns (error: Option<EngineError>)
      requires Valid()
      modifies this
      ensures Valid()
      ensures PassResult(plan, env, old(State()), id, operator, patch, fuel, State(), error)
      ensures error.None? ==> Takes(Runs(), Operation.Pass(id, operator, patch), old(State()), State())
      ensures error.None? ==> exists i: nat :: i < |old(tasks)| && MayAct(old(tasks)[i], id, operator) && RowsPassed(plan, old(tasks), tasks, i)
      ensures (forall t | t in old(tasks) && t.id == id :: Suffices(plan, t.node, fuel)) ==> error != Some(TooDeep)
    {
      var i;
      ReachableSound(Runs(), State());
      GuardRefuses(State(), id, operator);
      error, i := LoadTask(id, operator);
      if error.Some? {
        return;
      }
      var saved := State();
      FoundAt(tasks, i);
      error := Advance(i, patch, fuel);
      PassedHere(plan, env, saved, i, id, operator, patch, fuel, State(), error);
      if error.Some? {
        Restore(saved);
      } else {
        StepReaches(Runs(), Operation.Pass(id, operator, patch), saved, State());
      }
    }

    /** Passes the task, arbitrates its node, and moves on if the node is satisfied. */
    method Advance(i: nat, patch: Variables, fuel: nat) returns (error: Option<EngineError>)
      requires Usable(Runs()) && Sound(State()) && i < |tasks| && tasks[i].status.Pending? && status == Running
      modifies this
      ensures PassedAt(plan, env, old(State()), i, patch, fuel, if error.Some? then old(State()) else State(), error)
      ensures error.None? ==> PassEffect(plan, env, old(State()), State(), old(tasks)[i].id, patch)
      ensures error.None? ==> RowsPassed(plan, old(tasks), tasks, i)
      ensures Suffices(plan, old(tasks)[i].node, fuel) ==> error != Some(TooDeep)
    {
      ghost var before := State();
      var task := tasks[i];
      if task.node !in plan.nodes {
        return Some(NodeMissing);
      }
      var node := plan.nodes[task.node];
      var satisfied := Arbitrated(node, Decide(tasks, i, Passed), i);
      tasks := AfterPass(tasks, i, node);
      variables := variables + patch;
      ghost var settled := State();
      PassSettles(before.tasks, i, node);
      if satisfied {
        StepFacts(plan, env, settled, node.id, task.batch, fuel);
        error := MoveOn(node.id, task.batch, fuel);
        SettledResult(plan, env, before, i, patch, fuel, if error.Some? then before else State(), error);
        if error.None? {
          PassedOn(plan, env, before, settled, State(), i, patch);
        }
      } else {
        error := None;
        PassWaits(plan, env, before, settled, i, patch);
        SettledResult(plan, env, before, i, patch, fuel, settled, error);
        assert tasks[..|tasks|] == tasks;
      }
    }

    /** Rejects a task: back to a chosen node, to the approval upstream, or for good. */
    method Reject(id: nat, target: string, terminate: bool) returns (error: Option<EngineError>)
      requires Valid()
      modifies this
      ensures Valid()
      ensures RejectResult(plan, env, starter, old(State()), id, target, terminate, State(), error)
      ensures error.None? ==> Takes(Runs(), Operation.Reject(id, target, terminate), old(State()), State())
      ensures error.None? ==> exists i: nat :: i < |old(tasks)| && MayAct(old(tasks)[i], id, "") && RowsRejected(old(tasks), tasks, i)
      ensures error.None? ==> exists batch :: OnlyNextBatchPends(old(State()), State(), batch)
    {
      var i;
      ReachableSound(Runs(), State());
      GuardRefuses(State(), id, "");
      error, i := LoadTask(id, "");
      if error.Some? {
        return;
      }
      var saved := State();
      FoundAt(tasks, i);
      error := TurnBack(i, target, terminate);
      RejectedHere(plan, env, starter, saved, i, id, target, terminate, State(), error);
      if error.Some? {
        Restore(saved);
      } else {
        StepReaches(Runs(), Operation.Reject(id, target, terminate), saved, State());
        RejectionKeeps(env, starter, saved, i, RejectTarget(plan, saved.tasks[i].node, target, terminate).value);
      }
    }

    method TurnBack(i: nat, target: string, terminate: bool) returns (error: Option<EngineError>)
      requires Usable(Runs()) && Sound(State()) && i < |tasks| && tasks[i].status.Pending? && status == Running
      modifies this
      ensures RejectedAt(plan, env, starter, old(State()), i, target, terminate, if error.Some? then old(State()) else State(), error)
      ensures error.None? ==> RejectEffect(plan, env, starter, old(State()), State(), old(tasks)[i].id, target, terminate)
      ensures error.None? ==> RowsRejected(old(tasks), tasks, i)
    {
      var task := tasks[i];
      ghost var before := State();
      RejectSweeps(tasks, i);
      if task.node !in plan.nodes {
        return Some(NodeMissing);
      }
      FoundAt(tasks, i);
      RejectFallsBack(plan, task.node, target, terminate);
      tasks := AfterReject(tasks, i);
      var back: Option<NodeSpec> := None;
      if !terminate {
        error, back := TargetOf(task.node, target);
        if error.Some? {
          assert SentBack(env, starter, before, i, Err(error.value), before, error);
          return;
        }
      }
      if back.None? {
        assert tasks[..|tasks|] == tasks;
        status := Turned;
        RejectionResult(env, starter, before, i, None);
        return None;
      }
      error := Reopen(back.value, task.batch + 1);
      if error.None? {
        RejectionResult(env, starter, before, i, back);
      } else {
        assert SentBack(env, starter, before, i, Ok(back), before, error);
      }
    }

    /** Gives the target of a rejection its pending tasks. */
    method Reopen(node: NodeSpec, batch: int) returns (error: Option<EngineError>)
      modifies this
      ensures error == if node.kind.Start? then None else ApprovalError(env, node.id, old(variables))
      ensures error.None? ==> State() == ReopenedAt(env, starter, old(State()), node, batch)
    {
      currentNode := node.id;
      if node.kind.Start? {
        SaveTasks(node.id, OneVote, batch, [starter], Pending);
        error := None;
      } else {
        error := ExecuteApproval(node, batch);
      }
    }

    /** Where a rejection goes unless it terminates the instance. */
    method TargetOf(from: string, target: string) returns (error: Option<EngineError>, back: Option<NodeSpec>)
      requires Usable(Runs())
      ensures match RejectTarget(plan, from, target, false)
        case Err(e) => error == Some(e)
        case Ok(found) => error.None? && back == found
    {
      if target != "" {
        if target !in plan.nodes || !plan.nodes[target].CanRejectTo() {
          return Some(InvalidTarget), None;
        }
        return None, Some(plan.nodes[target]);
      }
      AcyclicEnds(Back(plan), from);
      DecidedWithin(plan, from);
      return None, UpstreamApproval(plan, from);
    }

    /** The starter withdraws the running instance, for good or to edit it again. */
    method Revoke(operator: string, backToStarter: bool) returns (error: Option<EngineError>)
      requires Valid()
      modifies this
      ensures Valid()
      ensures RevokeResult(plan, starter, old(State()), operator, backToStarter, State(), error)
      ensures error.None? ==> Takes(Runs(), Operation.Revoke(operator, backToStarter), old(State()), State())
    {
      if status != Running {
        return Some(NotRunning);
      }
      if operator != "" && operator != starter {
        return Some(Unauthorized);
      }
      if backToStarter && (plan.start.None? || plan.start.value.id == "") {
        return Some(NoStartNode);
      }
      ghost var before := State();
      RevocationResult(plan, starter, before, operator, backToStarter);
      CancelPending(backToStarter);
      StepReaches(Runs(), Operation.Revoke(operator, backToStarter), before, State());
      error := None;
    }

    method CancelPending(backToStarter: bool)
      requires backToStarter ==> plan.start.Some?
      modifies this
      ensures State() == AfterRevocation(plan, starter, old(State()), backToStarter)
    {
      var batch := MaxBatchCode(tasks) + 1;
      tasks := AfterRevoke(tasks);
      if backToStarter {
        currentNode := plan.start.value.id;
        SaveTasks(plan.start.value.id, OneVote, batch, [starter], Pending);
      } else {
        status := Withdrawn;
      }
    }
  }

  lemma ApprovalsAreWaited(nodes: seq<NodeSpec>)
    ensures (exists n | n in nodes :: n.IsWaitState()) <==> HasApproval(nodes)
  {
    forall k | 0 <= k < |nodes| && nodes[k].kind.Approval? ensures exists n | n in nodes :: n.IsWaitState() {
      assert nodes[k] in nodes && nodes[k].IsWaitState();
    }
  }

  /** Starting an instance of this valid definition, all copies having receivers, runs on beyond every depth. */
  method StartInLoop(parse: string -> Option<string>, env: Environment, starter: string, initial: Variables, fuel: nat)
    returns (error: Option<EngineError>)
    requires Answers(env, "c") && Answers(env, "d")
    ensures ValidDefinition(LOOP) && NoGatewayRing(LOOP) && error == Some(TooDeep)
  {
    LoopIsValid();
    var instance := new FlowInstance(LOOP, parse, env, starter);
    ValidationAdmitsCopyRings(instance.plan, env, parse);
    error := instance.Start(initial, fuel);
  }
}
