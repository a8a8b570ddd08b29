/** Moving an instance on within a batch as a function of its state: the step out of a node, the skips it records, the
    nodes it enters, and on through copies and finished workers. */
module FlowRun {
  import opened Prelude
  import opened Graphs
  import opened FlowPlan
  import opened FlowTransition
  import opened FlowStep
  import opened FlowJoin
  import opened FlowSnapshot
  import opened FlowEffects
  import opened FlowDepth

  /** The state an instance is left in, and the error that stopped it there, if any. */
  datatype Moved = Moved(state: Snapshot, error: Option<EngineError>)

  /** One task per person. */
  function Added(s: Snapshot, node: string, sign: SignRule, batch: int, people: seq<string>, status: TaskStatus): Snapshot {
    s.(tasks := s.tasks + MakeTasks(node, sign, batch, people, status, s.nextId), nextId := s.nextId + |people|)
  }

  function SkipsAdded(s: Snapshot, nodes: seq<NodeSpec>, batch: int): Snapshot {
    if nodes == [] then s else
    var last := nodes[|nodes| - 1];
    Added(SkipsAdded(s, nodes[..|nodes| - 1], batch), last.id, last.sign, batch, ["system"], Skipped)
  }

  ghost function StepOut(plan: ExecutionPlan, env: Environment, s: Snapshot, id: string): Result<Decision, FlowError>
    requires Indexed(plan)
  {
    Resolution(plan, id, RulesWith(env, s.variables), IsIn(Open(plan, s.tasks)))
  }

  /** Takes the step out of `id`; `depth` limits how far it leads through nodes at which the engine does not stop. */
  ghost function MoveOn(plan: ExecutionPlan, env: Environment, s: Snapshot, id: string, batch: int, depth: nat): Moved
    requires Indexed(plan)
    decreases depth, 0
  {
    match StepOut(plan, env, s, id)
    case Err(e) => Moved(s, Some(Routing(e)))
    case Ok(d) => if depth == 0 then Moved(s, Some(TooDeep)) else Apply(plan, env, s, d, batch, depth - 1)
  }

  ghost function Apply(plan: ExecutionPlan, env: Environment, s: Snapshot, d: Decision, batch: int, depth: nat): Moved
    requires Indexed(plan)
    decreases depth, 4
  {
    var skipped := SkipsAdded(s, d.skipped, batch);
    if d.blocked then Moved(skipped, None)
    else if d.ready == [] then Moved(skipped, Some(NoAvailablePath))
    else Activate(plan, env, skipped, d.ready, HasApproval(d.ready), batch, depth)
  }

  predicate HasApproval(nodes: seq<NodeSpec>) { exists k :: 0 <= k < |nodes| && nodes[k].kind.Approval? }

  /** Enters the nodes in order, up to the first error. */
  ghost function Activate(plan: ExecutionPlan, env: Environment, s: Snapshot, nodes: seq<NodeSpec>, waits: bool, batch: int,
                          depth: nat): Moved
    requires Indexed(plan)
    decreases depth, 3, |nodes|
  {
    if nodes == [] then Moved(s, None) else
    var before := Activate(plan, env, s, nodes[..|nodes| - 1], waits, batch, depth);
    if before.error.Some? then before
    else Enter(plan, env, before.state, nodes[|nodes| - 1], waits, batch, depth)
  }

  /** Makes the node current and runs it. */
  ghost function Enter(plan: ExecutionPlan, env: Environment, s: Snapshot, node: NodeSpec, waits: bool, batch: int, depth: nat)
    : Moved
    requires Indexed(plan)
    decreases depth, 2
  {
    match Entered(env, s, node, waits, batch)
    case Stays(moved) => moved
    case Leaves(state) => MoveOn(plan, env, state, node.id, batch, depth)
  }

  /** The engine stays at a node it has entered, or leaves it in the same call. */
  datatype Entry = Stays(moved: Moved) | Leaves(state: Snapshot)

  /** An approval waits for its assignees, an end finishes the instance unless an approval waits beside it, copies are
      done at once, and a worker is done, works on, or fails. */
  function Entered(env: Environment, s: Snapshot, node: NodeSpec, waits: bool, batch: int): Entry {
    var at := s.(currentNode := node.id);
    match node.kind
    case End => Stays(Moved(if waits then at else at.(status := Finished), None))
    case Approval => AtApproval(at, node, env.assignees(node.id, s.variables), batch)
    case CarbonCopy => AtCopy(at, node, env.assignees(node.id, s.variables), batch)
    case Automatic => AtWorker(at, node, env.worker(node.id, s.variables), batch)
    case _ => Stays(Moved(at, Some(UnsupportedNode)))
  }

  function AtApproval(s: Snapshot, node: NodeSpec, people: Option<seq<string>>, batch: int): Entry {
    if people.None? then Stays(Moved(s, Some(HookFailed)))
    else if people.value == [] then Stays(Moved(s, Some(NoAssignees)))
    else Stays(Moved(Added(s, node.id, node.sign, batch, people.value, Pending), None))
  }

  function AtCopy(s: Snapshot, node: NodeSpec, people: Option<seq<string>>, batch: int): Entry {
    if people.None? then Stays(Moved(s, Some(HookFailed)))
    else Leaves(Added(s, node.id, node.sign, batch, people.value, Passed))
  }

  function AtWorker(s: Snapshot, node: NodeSpec, result: WorkerResult, batch: int): Entry {
    match result
    case NotRegistered => Stays(Moved(s, Some(NoWorker)))
    case Failed => Stays(Moved(s, Some(WorkerFailed)))
    case Suspended => Stays(Moved(Added(s, node.id, node.sign, batch, ["system"], Pending), None))
    case Completed(patch) => Leaves(AfterWork(s, node, batch, patch))
  }

  /** The worker of the node has finished. */
  function AfterWork(s: Snapshot, node: NodeSpec, batch: int, patch: Variables): Snapshot {
    Added(s, node.id, node.sign, batch, ["system"], Passed).(variables := s.variables + patch)
  }

  // ---------------------------------------------------------------- tasks are only added

  lemma AddedGrows(s: Snapshot, node: string, sign: SignRule, batch: int, people: seq<string>, status: TaskStatus)
    requires status.Pending? || status.Passed? || status.Skipped?
    ensures Grows(s, Added(s, node, sign, batch, people, status), batch)
  {
    Appended(s, Added(s, node, sign, batch, people, status), node, sign, batch, people, status);
  }

  lemma {:induction false} SkipsGrow(s: Snapshot, nodes: seq<NodeSpec>, batch: int)
    ensures var b := SkipsAdded(s, nodes, batch);
      Grows(s, b, batch) && |b.tasks| == |s.tasks| + |nodes| && SkipsRecorded(nodes, |s.tasks|, b.tasks)
    ensures SkipsAdded(s, nodes, batch).variables == s.variables && SkipsAdded(s, nodes, batch).status == s.status
  {
    if nodes != [] {
      var rest, last := nodes[..|nodes| - 1], nodes[|nodes| - 1];
      var mid, b := SkipsAdded(s, rest, batch), SkipsAdded(s, nodes, batch);
      SkipsGrow(s, rest, batch);
      AddedGrows(mid, last.id, last.sign, batch, ["system"], Skipped);
      GrowsTransitive(s, mid, b, batch);
      assert nodes[..|rest| + 1] == nodes;
      SkipRecorded(nodes, |rest|, |s.tasks|, mid.tasks, b.tasks);
    }
  }

  lemma {:induction false} MoveOnGrows(plan: ExecutionPlan, env: Environment, s: Snapshot, id: string, batch: int, depth: nat)
    requires Indexed(plan)
    ensures Grows(s, MoveOn(plan, env, s, id, batch, depth).state, batch)
    decreases depth, 0
  {
    GrowsSelf(s, batch);
    var d := StepOut(plan, env, s, id);
    if d.Ok? && depth > 0 { ApplyGrows(plan, env, s, d.value, batch, depth - 1); }
  }

  lemma {:induction false} ApplyGrows(plan: ExecutionPlan, env: Environment, s: Snapshot, d: Decision, batch: int, depth: nat)
    requires Indexed(plan)
    ensures Grows(s, Apply(plan, env, s, d, batch, depth).state, batch)
    decreases depth, 4
  {
    var skipped := SkipsAdded(s, d.skipped, batch);
    SkipsGrow(s, d.skipped, batch);
    if !d.blocked && d.ready != [] {
      ActivateGrows(plan, env, skipped, d.ready, HasApproval(d.ready), batch, depth);
      GrowsTransitive(s, skipped, Apply(plan, env, s, d, batch, depth).state, batch);
    }
  }

  lemma {:induction false} ActivateGrows(plan: ExecutionPlan, env: Environment, s: Snapshot, nodes: seq<NodeSpec>, waits: bool,
                                         batch: int, depth: nat)
    requires Indexed(plan)
    ensures Grows(s, Activate(plan, env, s, nodes, waits, batch, depth).state, batch)
    decreases depth, 3, |nodes|
  {
    GrowsSelf(s, batch);
    if nodes != [] {
      var before := Activate(plan, env, s, nodes[..|nodes| - 1], waits, batch, depth);
      ActivateGrows(plan, env, s, nodes[..|nodes| - 1], waits, batch, depth);
      if before.error.None? {
        EnterGrows(plan, env, before.state, nodes[|nodes| - 1], waits, batch, depth);
        GrowsTransitive(s, before.state, Activate(plan, env, s, nodes, waits, batch, depth).state, batch);
      }
    }
  }

  function StateOf(e: Entry): Snapshot { match e case Stays(m) => m.state case Leaves(c) => c }

  /** Which node is current, and whether the instance has finished, is nothing to its tasks. */
  lemma CurrentGrows(s: Snapshot, at: Snapshot, b: Snapshot, batch: int)
    requires at.tasks == s.tasks && at.nextId == s.nextId && at.status == s.status && Grows(at, b, batch)
    ensures Grows(s, b, batch)
  {
  }

  lemma EndGrows(s: Snapshot, id: string, waits: bool, batch: int)
    ensures Grows(s, if waits then s.(currentNode := id) else s.(currentNode := id, status := Finished), batch)
  {
  }

  lemma EnteredGrows(env: Environment, s: Snapshot, node: NodeSpec, waits: bool, batch: int)
    ensures Grows(s, StateOf(Entered(env, s, node, waits, batch)), batch)
  {
    var at := s.(currentNode := node.id);
    if node.kind.End? {
      EndGrows(s, node.id, waits, batch);
    } else {
      EnteredAtGrows(env, s, at, node, waits, batch);
      CurrentGrows(s, at, StateOf(Entered(env, s, node, waits, batch)), batch);
    }
  }

  lemma EnteredAtGrows(env: Environment, s: Snapshot, at: Snapshot, node: NodeSpec, waits: bool, batch: int)
    requires at == s.(currentNode := node.id) && !node.kind.End?
    ensures Grows(at, StateOf(Entered(env, s, node, waits, batch)), batch)
  {
    if node.kind.Approval? {
      ApprovalGrows(at, node, env.assignees(node.id, s.variables), batch);
    } else if node.kind.CarbonCopy? {
      CopyGrows(at, node, env.assignees(node.id, s.variables), batch);
    } else if node.kind.Automatic? {
      WorkerGrows(at, node, env.worker(node.id, s.variables), batch);
    } else {
      GrowsSelf(at, batch);
    }
  }

  lemma ApprovalGrows(s: Snapshot, node: NodeSpec, people: Option<seq<string>>, batch: int)
    ensures Grows(s, StateOf(AtApproval(s, node, people, batch)), batch)
  {
    if people.Some? { AddedGrows(s, node.id, node.sign, batch, people.value, Pending); }
  }

  lemma CopyGrows(s: Snapshot, node: NodeSpec, people: Option<seq<string>>, batch: int)
    ensures Grows(s, StateOf(AtCopy(s, node, people, batch)), batch)
  {
    if people.Some? { AddedGrows(s, node.id, node.sign, batch, people.value, Passed); }
  }

  lemma WorkerGrows(s: Snapshot, node: NodeSpec, result: WorkerResult, batch: int)
    ensures Grows(s, StateOf(AtWorker(s, node, result, batch)), batch)
  {
    AddedGrows(s, node.id, node.sign, batch, ["system"], Pending);
    AddedGrows(s, node.id, node.sign, batch, ["system"], Passed);
  }

  lemma {:induction false} EnterGrows(plan: ExecutionPlan, env: Environment, s: Snapshot, node: NodeSpec, waits: bool, batch: int,
                                      depth: nat)
    requires Indexed(plan)
    ensures Grows(s, Enter(plan, env, s, node, waits, batch, depth).state, batch)
    decreases depth, 2
  {
    EnteredGrows(env, s, node, waits, batch);
    var e := Entered(env, s, node, waits, batch);
    if e.Leaves? {
      MoveOnGrows(plan, env, e.state, node.id, batch, depth);
      GrowsTransitive(s, e.state, MoveOn(plan, env, e.state, node.id, batch, depth).state, batch);
    }
  }

  // ---------------------------------------------------------------- what a step without an error has done

  lemma AddedOpens(s: Snapshot, node: string, sign: SignRule, batch: int, people: seq<string>, status: TaskStatus)
    ensures Opens(s, Added(s, node, sign, batch, people, status), node, sign, batch, people, status)
  {
  }

  lemma {:induction false} SkipsAlone(s: Snapshot, nodes: seq<NodeSpec>, batch: int)
    ensures SkipsOnly(s, SkipsAdded(s, nodes, batch), nodes, batch)
  {
    if nodes != [] {
      var rest, last := nodes[..|nodes| - 1], nodes[|nodes| - 1];
      var mid, b := SkipsAdded(s, rest, batch), SkipsAdded(s, nodes, batch);
      SkipsAlone(s, rest, batch);
      forall k | 0 <= k < |nodes|
        ensures b.tasks[|s.tasks| + k] == FlowTask(s.nextId + k, nodes[k].id, batch, "system", nodes[k].sign, Skipped)
      {
        if k < |rest| { assert b.tasks[|s.tasks| + k] == mid.tasks[|s.tasks| + k] && rest[k] == nodes[k]; }
      }
      assert b.tasks[..|s.tasks|] == mid.tasks[..|s.tasks|];
    }
  }

  lemma {:induction false} MoveOnMoves(plan: ExecutionPlan, env: Environment, s: Snapshot, id: string, batch: int, depth: nat)
    requires Indexed(plan) && MoveOn(plan, env, s, id, batch, depth).error.None?
    ensures MovedOn(plan, env, s, MoveOn(plan, env, s, id, batch, depth).state, id, batch)
    decreases depth, 0
  {
    ResolutionDecides(plan, id, RulesWith(env, s.variables), IsIn(Open(plan, s.tasks)));
    var d := StepOut(plan, env, s, id).value;
    assert StepDecides(plan, env, s, id, d);
    ApplyApplies(plan, env, s, d, batch, depth - 1);
  }

  lemma {:induction false} ApplyApplies(plan: ExecutionPlan, env: Environment, s: Snapshot, d: Decision, batch: int, depth: nat)
    requires Indexed(plan) && Apply(plan, env, s, d, batch, depth).error.None?
    ensures Applied(d, s, Apply(plan, env, s, d, batch, depth).state, batch)
    decreases depth, 4
  {
    var skipped, b := SkipsAdded(s, d.skipped, batch), Apply(plan, env, s, d, batch, depth).state;
    SkipsGrow(s, d.skipped, batch);
    if !d.blocked {
      ActivateGrows(plan, env, skipped, d.ready, HasApproval(d.ready), batch, depth);
      GrowsTransitive(s, skipped, b, batch);
      ActivateActivates(plan, env, skipped, d.ready, HasApproval(d.ready), batch, depth);
      if Finishes(d.ready) { ActivateFinishes(plan, env, skipped, d.ready, batch, depth); }
      SkipsThenActivated(d, s, skipped, b, batch);
    }
  }

  lemma {:induction false} ActivateActivates(plan: ExecutionPlan, env: Environment, s: Snapshot, nodes: seq<NodeSpec>, waits: bool,
                                             batch: int, depth: nat)
    requires Indexed(plan) && Activate(plan, env, s, nodes, waits, batch, depth).error.None?
    ensures ApprovalsWait(nodes, s, Activate(plan, env, s, nodes, waits, batch, depth).state, batch)
    decreases depth, 3, |nodes|
  {
    if nodes != [] {
      var rest, last := nodes[..|nodes| - 1], nodes[|nodes| - 1];
      var mid, b := Activate(plan, env, s, rest, waits, batch, depth).state, Activate(plan, env, s, nodes, waits, batch, depth).state;
      ActivateActivates(plan, env, s, rest, waits, batch, depth);
      ActivateGrows(plan, env, s, rest, waits, batch, depth);
      EnterGrows(plan, env, mid, last, waits, batch, depth);
      EnterWaits(plan, env, mid, last, waits, batch, depth);
      assert nodes[..|rest| + 1] == nodes;
      StillWaiting(nodes, |rest|, s, mid, b, batch);
    }
  }

  lemma {:induction false} ActivateFinishes(plan: ExecutionPlan, env: Environment, s: Snapshot, nodes: seq<NodeSpec>, batch: int,
                                            depth: nat)
    requires Indexed(plan) && Activate(plan, env, s, nodes, false, batch, depth).error.None?
    ensures (exists k :: 0 <= k < |nodes| && nodes[k].kind == End) ==>
      Activate(plan, env, s, nodes, false, batch, depth).state.status == InstanceStatus.Finished
    decreases depth, 3, |nodes|
  {
    if nodes != [] {
      var rest, last := nodes[..|nodes| - 1], nodes[|nodes| - 1];
      ActivateFinishes(plan, env, s, rest, batch, depth);
      EnterGrows(plan, env, Activate(plan, env, s, rest, false, batch, depth).state, last, false, batch, depth);
      if exists k :: 0 <= k < |nodes| && nodes[k].kind == End {
        var k :| 0 <= k < |nodes| && nodes[k].kind == End;
        assert k < |rest| ==> rest[k].kind == End;
      }
    }
  }

  lemma EnterWaits(plan: ExecutionPlan, env: Environment, s: Snapshot, node: NodeSpec, waits: bool, batch: int, depth: nat)
    requires Indexed(plan) && Enter(plan, env, s, node, waits, batch, depth).error.None?
    ensures node.kind.Approval? ==> Waits(s, Enter(plan, env, s, node, waits, batch, depth).state, node.id, batch)
  {
    if node.kind.Approval? {
      var b := Enter(plan, env, s, node, waits, batch, depth).state;
      assert b.tasks[|s.tasks|].node == node.id;
    }
  }

  lemma AtApprovalServes(s: Snapshot, node: NodeSpec, people: Option<seq<string>>, batch: int)
    ensures var e := AtApproval(s.(currentNode := node.id), node, people, batch);
      e.Stays? && (e.moved.error.None? ==> ServesApproval(s, e.moved.state, node, people, batch))
  {
    if people.Some? { ApprovalOpens(s, node, people.value, batch); }
  }

  lemma ApprovalOpens(s: Snapshot, node: NodeSpec, people: seq<string>, batch: int)
    ensures var b := Added(s.(currentNode := node.id), node.id, node.sign, batch, people, Pending);
      Opens(s, b, node.id, node.sign, batch, people, Pending) && b == s.(tasks := b.tasks, nextId := b.nextId, currentNode := node.id)
  {
    AddedOpens(s.(currentNode := node.id), node.id, node.sign, batch, people, Pending);
  }

  lemma CopyDone(s: Snapshot, node: NodeSpec, people: seq<string>, batch: int)
    ensures Done(s, Added(s.(currentNode := node.id), node.id, node.sign, batch, people, Passed), node, people, s.variables, batch)
  {
    AddedOpens(s.(currentNode := node.id), node.id, node.sign, batch, people, Passed);
  }

  lemma WorkDone(s: Snapshot, node: NodeSpec, patch: Variables, batch: int)
    ensures Done(s, AfterWork(s.(currentNode := node.id), node, batch, patch), node, ["system"], s.variables + patch, batch)
  {
    AddedOpens(s.(currentNode := node.id), node.id, node.sign, batch, ["system"], Passed);
  }

  lemma CopyServes(plan: ExecutionPlan, env: Environment, s: Snapshot, node: NodeSpec, waits: bool, batch: int, depth: nat)
    requires Indexed(plan) && node.kind.CarbonCopy? && Enter(plan, env, s, node, waits, batch, depth).error.None?
    ensures Serves(plan, env, s, Enter(plan, env, s, node, waits, batch, depth).state, node, waits, batch)
  {
    var people := env.assignees(node.id, s.variables).value;
    var c := Added(s.(currentNode := node.id), node.id, node.sign, batch, people, Passed);
    CopyDone(s, node, people, batch);
    MoveOnMoves(plan, env, c, node.id, batch, depth);
  }

  lemma WorkerServes(plan: ExecutionPlan, env: Environment, s: Snapshot, node: NodeSpec, waits: bool, batch: int, depth: nat)
    requires Indexed(plan) && node.kind.Automatic? && Enter(plan, env, s, node, waits, batch, depth).error.None?
    ensures Serves(plan, env, s, Enter(plan, env, s, node, waits, batch, depth).state, node, waits, batch)
  {
    var result := env.worker(node.id, s.variables);
    if result.Completed? {
      WorkDone(s, node, result.variables, batch);
      MoveOnMoves(plan, env, AfterWork(s.(currentNode := node.id), node, batch, result.variables), node.id, batch, depth);
    } else {
      AddedOpens(s.(currentNode := node.id), node.id, node.sign, batch, ["system"], Pending);
    }
  }

  lemma EnterServes(plan: ExecutionPlan, env: Environment, s: Snapshot, node: NodeSpec, waits: bool, batch: int, depth: nat)
    requires Indexed(plan) && Enter(plan, env, s, node, waits, batch, depth).error.None?
    ensures Serves(plan, env, s, Enter(plan, env, s, node, waits, batch, depth).state, node, waits, batch)
  {
    if node.kind.CarbonCopy? {
      CopyServes(plan, env, s, node, waits, batch, depth);
    } else if node.kind.Automatic? {
      WorkerServes(plan, env, s, node, waits, batch, depth);
    } else if node.kind.Approval? {
      AtApprovalServes(s, node, env.assignees(node.id, s.variables), batch);
    }
  }

  /** The states between the nodes entered. */
  ghost function Between(plan: ExecutionPlan, env: Environment, s: Snapshot, nodes: seq<NodeSpec>, waits: bool, batch: int,
                         depth: nat): (states: seq<Snapshot>)
    requires Indexed(plan)
    ensures |states| == |nodes| + 1
    ensures forall k | 0 <= k < |states| :: states[k] == Activate(plan, env, s, nodes[..k], waits, batch, depth).state
  {
    seq(|nodes| + 1, k requires 0 <= k <= |nodes| => Activate(plan, env, s, nodes[..k], waits, batch, depth).state)
  }

  lemma {:induction false} PrefixSucceeds(plan: ExecutionPlan, env: Environment, s: Snapshot, nodes: seq<NodeSpec>, waits: bool,
                                          batch: int, depth: nat, k: nat)
    requires Indexed(plan) && k <= |nodes| && Activate(plan, env, s, nodes, waits, batch, depth).error.None?
    ensures Activate(plan, env, s, nodes[..k], waits, batch, depth).error.None?
    decreases |nodes| - k
  {
    if k == |nodes| {
      assert nodes[..k] == nodes;
    } else {
      PrefixSucceeds(plan, env, s, nodes, waits, batch, depth, k + 1);
      assert nodes[..k + 1][..k] == nodes[..k];
    }
  }

  lemma EachServed(plan: ExecutionPlan, env: Environment, s: Snapshot, nodes: seq<NodeSpec>, waits: bool, batch: int, depth: nat,
                   k: nat)
    requires Indexed(plan) && k < |nodes| && Activate(plan, env, s, nodes, waits, batch, depth).error.None?
    ensures Serves(plan, env, Activate(plan, env, s, nodes[..k], waits, batch, depth).state,
                   Activate(plan, env, s, nodes[..k + 1], waits, batch, depth).state, nodes[k], waits, batch)
  {
    PrefixSucceeds(plan, env, s, nodes, waits, batch, depth, k);
    PrefixSucceeds(plan, env, s, nodes, waits, batch, depth, k + 1);
    assert nodes[..k + 1][..k] == nodes[..k];
    EnterServes(plan, env, Activate(plan, env, s, nodes[..k], waits, batch, depth).state, nodes[k], waits, batch, depth);
  }

  lemma ActivateServes(plan: ExecutionPlan, env: Environment, s: Snapshot, nodes: seq<NodeSpec>, batch: int, depth: nat)
    requires Indexed(plan) && Activate(plan, env, s, nodes, HasApproval(nodes), batch, depth).error.None?
    ensures ServedInOrder(plan, env, Between(plan, env, s, nodes, HasApproval(nodes), batch, depth), nodes, batch)
  {
    var waits := HasApproval(nodes);
    var states := Between(plan, env, s, nodes, waits, batch, depth);
    forall k: nat | k < |nodes| ensures ServedAt(plan, env, states, nodes, k, batch) {
      EachServed(plan, env, s, nodes, waits, batch, depth, k);
    }
  }

  lemma ApplyTakes(plan: ExecutionPlan, env: Environment, s: Snapshot, id: string, batch: int, d: Decision, depth: nat)
    requires Indexed(plan) && StepDecides(plan, env, s, id, d) && !d.blocked
    requires Apply(plan, env, s, d, batch, depth).error.None?
    ensures StepTaken(plan, env, s, Apply(plan, env, s, d, batch, depth).state, id, batch)
  {
    var skipped, waits := SkipsAdded(s, d.skipped, batch), HasApproval(d.ready);
    SkipsAlone(s, d.skipped, batch);
    var states := Between(plan, env, skipped, d.ready, waits, batch, depth);
    ActivateServes(plan, env, skipped, d.ready, batch, depth);
    assert d.ready[..|d.ready|] == d.ready && d.ready[..0] == [];
    assert StepBy(plan, env, s, Apply(plan, env, s, d, batch, depth).state, id, batch, d, states);
  }

  /** A step that ends without an error has been taken, node by node. */
  lemma MoveOnTakes(plan: ExecutionPlan, env: Environment, s: Snapshot, id: string, batch: int, depth: nat)
    requires Indexed(plan) && MoveOn(plan, env, s, id, batch, depth).error.None?
    ensures StepTaken(plan, env, s, MoveOn(plan, env, s, id, batch, depth).state, id, batch)
  {
    ResolutionDecides(plan, id, RulesWith(env, s.variables), IsIn(Open(plan, s.tasks)));
    var d := StepOut(plan, env, s, id).value;
    assert StepDecides(plan, env, s, id, d);
    if d.blocked {
      SkipsAlone(s, d.skipped, batch);
      assert StepBy(plan, env, s, SkipsAdded(s, d.skipped, batch), id, batch, d, [SkipsAdded(s, d.skipped, batch)]);
    } else {
      ApplyTakes(plan, env, s, id, batch, d, depth - 1);
    }
  }

  /** Once a node has failed, no later one is entered. */
  lemma {:induction false} ErrorEnds(plan: ExecutionPlan, env: Environment, s: Snapshot, nodes: seq<NodeSpec>, waits: bool,
                                     batch: int, depth: nat, k: nat)
    requires Indexed(plan) && k <= |nodes| && Activate(plan, env, s, nodes[..k], waits, batch, depth).error.Some?
    ensures Activate(plan, env, s, nodes, waits, batch, depth) == Activate(plan, env, s, nodes[..k], waits, batch, depth)
    decreases |nodes| - k
  {
    if k == |nodes| {
      assert nodes[..k] == nodes;
    } else {
      assert nodes[..k + 1][..k] == nodes[..k];
      ErrorEnds(plan, env, s, nodes, waits, batch, depth, k + 1);
    }
  }

  // ---------------------------------------------------------------- how deep it goes

  lemma StepShallow(plan: ExecutionPlan, env: Environment, s: Snapshot, id: string, depth: nat)
    requires Indexed(plan) && Suffices(plan, id, depth) && StepOut(plan, env, s, id).Ok?
    ensures depth > 0 && Shallow(plan, StepOut(plan, env, s, id).value.ready, depth - 1)
  {
    var eval, open, d := RulesWith(env, s.variables), IsIn(Open(plan, s.tasks)), StepOut(plan, env, s, id).value;
    ResolutionDecides(plan, id, eval, open);
    var order :| Decides(plan, id, eval, open, d, order);
    ReadyShallow(plan, id, eval, open, d, order, depth);
  }

  lemma {:induction false} MoveOnSuffices(plan: ExecutionPlan, env: Environment, s: Snapshot, id: string, batch: int, depth: nat,
                                          more: nat)
    requires Indexed(plan) && Suffices(plan, id, depth) && Suffices(plan, id, more)
    ensures MoveOn(plan, env, s, id, batch, depth).error != Some(TooDeep)
    ensures MoveOn(plan, env, s, id, batch, more) == MoveOn(plan, env, s, id, batch, depth)
    decreases depth, 0
  {
    var r := StepOut(plan, env, s, id);
    if r.Ok? {
      StepShallow(plan, env, s, id, depth);
      StepShallow(plan, env, s, id, more);
      ApplySuffices(plan, env, s, r.value, batch, depth - 1, more - 1);
    }
  }

  lemma {:induction false} ApplySuffices(plan: ExecutionPlan, env: Environment, s: Snapshot, d: Decision, batch: int, depth: nat,
                                         more: nat)
    requires Indexed(plan) && Shallow(plan, d.ready, depth) && Shallow(plan, d.ready, more)
    ensures Apply(plan, env, s, d, batch, depth).error != Some(TooDeep)
    ensures Apply(plan, env, s, d, batch, more) == Apply(plan, env, s, d, batch, depth)
    decreases depth, 4
  {
    ActivateSuffices(plan, env, SkipsAdded(s, d.skipped, batch), d.ready, HasApproval(d.ready), batch, depth, more);
  }

  lemma {:induction false} ActivateSuffices(plan: ExecutionPlan, env: Environment, s: Snapshot, nodes: seq<NodeSpec>, waits: bool,
                                            batch: int, depth: nat, more: nat)
    requires Indexed(plan) && Shallow(plan, nodes, depth) && Shallow(plan, nodes, more)
    ensures Activate(plan, env, s, nodes, waits, batch, depth).error != Some(TooDeep)
    ensures Activate(plan, env, s, nodes, waits, batch, more) == Activate(plan, env, s, nodes, waits, batch, depth)
    decreases depth, 3, |nodes|
  {
    if nodes != [] {
      var rest, last := nodes[..|nodes| - 1], nodes[|nodes| - 1];
      assert last in nodes && forall n | n in rest :: n in nodes;
      ActivateSuffices(plan, env, s, rest, waits, batch, depth, more);
      var before := Activate(plan, env, s, rest, waits, batch, depth);
      if before.error.None? { EnterSuffices(plan, env, before.state, last, waits, batch, depth, more); }
    }
  }

  lemma {:induction false} EnterSuffices(plan: ExecutionPlan, env: Environment, s: Snapshot, node: NodeSpec, waits: bool, batch: int,
                                         depth: nat, more: nat)
    requires Indexed(plan) && NodeSuffices(plan, node, depth) && NodeSuffices(plan, node, more)
    ensures Enter(plan, env, s, node, waits, batch, depth).error != Some(TooDeep)
    ensures Enter(plan, env, s, node, waits, batch, more) == Enter(plan, env, s, node, waits, batch, depth)
    decreases depth, 2
  {
    var e := Entered(env, s, node, waits, batch);
    if e.Leaves? { MoveOnSuffices(plan, env, e.state, node.id, batch, depth, more); }
  }

  lemma StepTrapped(plan: ExecutionPlan, env: Environment, s: Snapshot, id: string)
    requires Indexed(plan) && Trapped(plan, env, id)
    ensures var r := StepOut(plan, env, s, id); r.Ok? && !r.value.blocked && TrapAhead(plan, env, r.value.ready)
  {
    var eval, open := RulesWith(env, s.variables), IsIn(Open(plan, s.tasks));
    ResolutionDecides(plan, id, eval, open);
    TrapDefined(plan, env, id, eval, open);
    var d := StepOut(plan, env, s, id).value;
    var order :| Decides(plan, id, eval, open, d, order);
    TrapDecided(plan, env, id, eval, open, d, order);
  }

  lemma {:induction false} MoveOnTrapped(plan: ExecutionPlan, env: Environment, s: Snapshot, id: string, batch: int, depth: nat)
    requires Indexed(plan) && Trapped(plan, env, id)
    ensures MoveOn(plan, env, s, id, batch, depth).error == Some(TooDeep)
    decreases depth, 0
  {
    StepTrapped(plan, env, s, id);
    if depth > 0 { ApplyTrapped(plan, env, s, StepOut(plan, env, s, id).value, batch, depth - 1); }
  }

  lemma {:induction false} ApplyTrapped(plan: ExecutionPlan, env: Environment, s: Snapshot, d: Decision, batch: int, depth: nat)
    requires Indexed(plan) && !d.blocked && TrapAhead(plan, env, d.ready)
    ensures Apply(plan, env, s, d, batch, depth).error == Some(TooDeep)
    decreases depth, 4
  {
    ActivateTrapped(plan, env, SkipsAdded(s, d.skipped, batch), d.ready, HasApproval(d.ready), batch, depth);
  }

  lemma {:induction false} ActivateTrapped(plan: ExecutionPlan, env: Environment, s: Snapshot, nodes: seq<NodeSpec>, waits: bool,
                                           batch: int, depth: nat)
    requires Indexed(plan) && forall n | n in nodes :: n.kind.End? || InTrap(plan, env, n)
    ensures var r := Activate(plan, env, s, nodes, waits, batch, depth);
      if exists n :: n in nodes && InTrap(plan, env, n) then r.error == Some(TooDeep) else r.error.None?
    decreases depth, 3, |nodes|
  {
    if nodes != [] {
      var rest, last := nodes[..|nodes| - 1], nodes[|nodes| - 1];
      assert nodes == rest + [last];
      ActivateTrapped(plan, env, s, rest, waits, batch, depth);
      var before := Activate(plan, env, s, rest, waits, batch, depth);
      if before.error.None? && InTrap(plan, env, last) { EnterTrapped(plan, env, before.state, last, waits, batch, depth); }
    }
  }

  lemma {:induction false} EnterTrapped(plan: ExecutionPlan, env: Environment, s: Snapshot, node: NodeSpec, waits: bool, batch: int,
                                        depth: nat)
    requires Indexed(plan) && InTrap(plan, env, node)
    ensures Enter(plan, env, s, node, waits, batch, depth).error == Some(TooDeep)
    decreases depth, 2
  {
    assert env.assignees(node.id, s.variables).Some?;
    var e := Entered(env, s, node, waits, batch);
    MoveOnTrapped(plan, env, e.state, node.id, batch, depth);
  }

  // ---------------------------------------------------------------- why it stops with an error

  /** What is wrong at node `id` in state `m`. */
  ghost predicate Reason(plan: ExecutionPlan, env: Environment, m: Snapshot, id: string, e: EngineError) {
    match e
    case Routing(_) => StepFails(plan, env, m, id)
    case NoAvailablePath => exists d :: StepDecides(plan, env, m, id, d) && !d.blocked && d.ready == []
    case HookFailed => env.assignees(id, m.variables) == None
    case NoAssignees => env.assignees(id, m.variables) == Some([]) && id in plan.nodes && plan.nodes[id].kind == Approval
    case NoWorker => env.worker(id, m.variables) == NotRegistered
    case WorkerFailed => env.worker(id, m.variables) == WorkerResult.Failed
    case UnsupportedNode => id in plan.nodes && Unsupported(plan.nodes[id].kind)
    case TooDeep => true
    case _ => false
  }

  predicate Unsupported(kind: NodeType) {
    kind != End && kind != Approval && kind != CarbonCopy && kind != Automatic
  }

  /** Something was wrong in a state it had come to. */
  ghost predicate HasReason(plan: ExecutionPlan, env: Environment, s: Snapshot, batch: int, e: EngineError) {
    exists m, id :: Grows(s, m, batch) && Reason(plan, env, m, id, e)
  }

  lemma ReasonSince(plan: ExecutionPlan, env: Environment, s: Snapshot, mid: Snapshot, batch: int, e: EngineError)
    requires Grows(s, mid, batch) && HasReason(plan, env, mid, batch, e)
    ensures HasReason(plan, env, s, batch, e)
  {
    var m, id :| Grows(mid, m, batch) && Reason(plan, env, m, id, e);
    GrowsTransitive(s, mid, m, batch);
  }

  /** Moving on stops with an error only where there is a reason for it. */
  lemma {:induction false} ErrorHasReason(plan: ExecutionPlan, env: Environment, s: Snapshot, id: string, batch: int, depth: nat)
    requires Indexed(plan) && MoveOn(plan, env, s, id, batch, depth).error.Some?
    ensures HasReason(plan, env, s, batch, MoveOn(plan, env, s, id, batch, depth).error.value)
    decreases depth, 0
  {
    GrowsSelf(s, batch);
    ResolutionDecides(plan, id, RulesWith(env, s.variables), IsIn(Open(plan, s.tasks)));
    var r, e := StepOut(plan, env, s, id), MoveOn(plan, env, s, id, batch, depth).error.value;
    if r.Err? || depth == 0 || r.value.ready == [] {
      assert r.Ok? ==> StepDecides(plan, env, s, id, r.value);
      assert Reason(plan, env, s, id, e);
    } else {
      var skipped := SkipsAdded(s, r.value.skipped, batch);
      SkipsGrow(s, r.value.skipped, batch);
      ReadyKnown(plan, env, s, id, r.value);
      ActivateHasReason(plan, env, skipped, r.value.ready, HasApproval(r.value.ready), batch, depth - 1);
      ReasonSince(plan, env, s, skipped, batch, e);
    }
  }

  lemma ReadyKnown(plan: ExecutionPlan, env: Environment, s: Snapshot, id: string, d: Decision)
    requires StepDecides(plan, env, s, id, d)
    ensures forall n | n in d.ready :: n.id in plan.nodes && plan.nodes[n.id] == n
  {
    var order :| Decides(plan, id, RulesWith(env, s.variables), IsIn(Open(plan, s.tasks)), d, order);
  }

  lemma {:induction false} ActivateHasReason(plan: ExecutionPlan, env: Environment, s: Snapshot, nodes: seq<NodeSpec>, waits: bool,
                                             batch: int, depth: nat)
    requires Indexed(plan) && forall n | n in nodes :: n.id in plan.nodes && plan.nodes[n.id] == n
    requires Activate(plan, env, s, nodes, waits, batch, depth).error.Some?
    ensures HasReason(plan, env, s, batch, Activate(plan, env, s, nodes, waits, batch, depth).error.value)
    decreases depth, 3, |nodes|
  {
    var rest, last := nodes[..|nodes| - 1], nodes[|nodes| - 1];
    assert nodes == rest + [last];
    var before := Activate(plan, env, s, rest, waits, batch, depth);
    if before.error.Some? {
      ActivateHasReason(plan, env, s, rest, waits, batch, depth);
    } else {
      ActivateGrows(plan, env, s, rest, waits, batch, depth);
      EnterHasReason(plan, env, before.state, last, waits, batch, depth);
      ReasonSince(plan, env, s, before.state, batch, Enter(plan, env, before.state, last, waits, batch, depth).error.value);
    }
  }

  lemma {:induction false} EnterHasReason(plan: ExecutionPlan, env: Environment, s: Snapshot, node: NodeSpec, waits: bool,
                                          batch: int, depth: nat)
    requires Indexed(plan) && node.id in plan.nodes && plan.nodes[node.id] == node
    requires Enter(plan, env, s, node, waits, batch, depth).error.Some?
    ensures HasReason(plan, env, s, batch, Enter(plan, env, s, node, waits, batch, depth).error.value)
    decreases depth, 2
  {
    var e := Entered(env, s, node, waits, batch);
    if e.Leaves? {
      ErrorHasReason(plan, env, e.state, node.id, batch, depth);
      EnteredGrows(env, s, node, waits, batch);
      ReasonSince(plan, env, s, e.state, batch, MoveOn(plan, env, e.state, node.id, batch, depth).error.value);
    } else {
      GrowsSelf(s, batch);
      StaysWithReason(plan, env, s, node, waits, batch);
    }
  }

  lemma StaysWithReason(plan: ExecutionPlan, env: Environment, s: Snapshot, node: NodeSpec, waits: bool, batch: int)
    requires node.id in plan.nodes && plan.nodes[node.id] == node
    requires var e := Entered(env, s, node, waits, batch); e.Stays? && e.moved.error.Some?
    ensures Reason(plan, env, s, node.id, Entered(env, s, node, waits, batch).moved.error.value)
  {
  }

  // ---------------------------------------------------------------- a step into approvals and ends

  ghost predicate Staffed(env: Environment, variables: Variables, nodes: seq<NodeSpec>) {
    forall n | n in nodes && n.kind == Approval :: env.assignees(n.id, variables).Some? && env.assignees(n.id, variables).value != []
  }

  lemma {:induction false} PlainActivates(plan: ExecutionPlan, env: Environment, s: Snapshot, nodes: seq<NodeSpec>, waits: bool,
                                          batch: int, depth: nat)
    requires Indexed(plan) && forall n | n in nodes :: n.kind == Approval || n.kind == End
    ensures var r := Activate(plan, env, s, nodes, waits, batch, depth);
      && (r.error.None? <==> Staffed(env, s.variables, nodes)) && r.state.variables == s.variables
      && (r.error.Some? ==> r.error.value == HookFailed || r.error.value == NoAssignees)
      && (waits ==> r.state.status == s.status)
    decreases |nodes|
  {
    if nodes != [] {
      var rest, last := nodes[..|nodes| - 1], nodes[|nodes| - 1];
      assert nodes == rest + [last];
      PlainActivates(plan, env, s, rest, waits, batch, depth);
    }
  }

  /** Into approvals and ends alone a step succeeds exactly if every approval has assignees, and with an approval among
      them the instance runs on. */
  lemma PlainStep(plan: ExecutionPlan, env: Environment, s: Snapshot, id: string, batch: int, depth: nat, d: Decision)
    requires Indexed(plan) && StepOut(plan, env, s, id) == Ok(d) && depth > 0
    requires !d.blocked && d.ready != [] && forall n | n in d.ready :: n.kind == Approval || n.kind == End
    ensures var r := MoveOn(plan, env, s, id, batch, depth);
      && (r.error.None? <==> Staffed(env, s.variables, d.ready)) && r.state.variables == s.variables
      && ((exists n :: n in d.ready && n.kind == Approval) ==> r.state.status == s.status)
  {
    var skipped := SkipsAdded(s, d.skipped, batch);
    assert skipped.variables == s.variables && skipped.status == s.status by { SkipsGrow(s, d.skipped, batch); }
    PlainActivates(plan, env, SkipsAdded(s, d.skipped, batch), d.ready, HasApproval(d.ready), batch, depth - 1);
    assert forall n | n in d.ready && n.kind == Approval :: HasApproval(d.ready);
  }

  // ---------------------------------------------------------------- together

  /** What is known of every decision applied. */
  lemma ApplyFacts(plan: ExecutionPlan, env: Environment, s: Snapshot, d: Decision, batch: int, depth: nat)
    requires Indexed(plan)
    ensures var r := Apply(plan, env, s, d, batch, depth);
      && Grows(s, r.state, batch) && (r.error.None? ==> Applied(d, s, r.state, batch))
      && (Shallow(plan, d.ready, depth) ==> r.error != Some(TooDeep))
      && (!d.blocked && TrapAhead(plan, env, d.ready) ==> r.error == Some(TooDeep))
  {
    ApplyGrows(plan, env, s, d, batch, depth);
    if Apply(plan, env, s, d, batch, depth).error.None? { ApplyApplies(plan, env, s, d, batch, depth); }
    if Shallow(plan, d.ready, depth) { ApplySuffices(plan, env, s, d, batch, depth, depth); }
    if !d.blocked && TrapAhead(plan, env, d.ready) { ApplyTrapped(plan, env, s, d, batch, depth); }
  }

  /** Some states lead from `a` to `b`, each by serving the next of the nodes. */
  ghost predicate ServedBetween(plan: ExecutionPlan, env: Environment, a: Snapshot, b: Snapshot, nodes: seq<NodeSpec>, batch: int) {
    exists states :: ServedInOrder(plan, env, states, nodes, batch) && states[0] == a && states[|nodes|] == b
  }

  /** What is known of every activation. */
  lemma ActivateFacts(plan: ExecutionPlan, env: Environment, s: Snapshot, nodes: seq<NodeSpec>, batch: int, depth: nat)
    requires Indexed(plan)
    ensures var r := Activate(plan, env, s, nodes, HasApproval(nodes), batch, depth);
      && Grows(s, r.state, batch) && (r.error.None? ==> Activated(nodes, s, r.state, batch))
      && (r.error.None? ==> ServedBetween(plan, env, s, r.state, nodes, batch))
      && (Shallow(plan, nodes, depth) ==> r.error != Some(TooDeep))
      && (TrapAhead(plan, env, nodes) ==> r.error == Some(TooDeep))
  {
    var waits := HasApproval(nodes);
    ActivateGrows(plan, env, s, nodes, waits, batch, depth);
    if Activate(plan, env, s, nodes, waits, batch, depth).error.None? {
      ActivateActivates(plan, env, s, nodes, waits, batch, depth);
      if Finishes(nodes) { ActivateFinishes(plan, env, s, nodes, batch, depth); }
      ActivateServes(plan, env, s, nodes, batch, depth);
      var states := Between(plan, env, s, nodes, waits, batch, depth);
      assert nodes[..|nodes|] == nodes && nodes[..0] == [];
      assert states[0] == s && states[|nodes|] == Activate(plan, env, s, nodes, waits, batch, depth).state;
    }
    if Shallow(plan, nodes, depth) { ActivateSuffices(plan, env, s, nodes, waits, batch, depth, depth); }
    if TrapAhead(plan, env, nodes) { ActivateTrapped(plan, env, s, nodes, waits, batch, depth); }
  }

  /** What is known of every step. */
  lemma StepFacts(plan: ExecutionPlan, env: Environment, s: Snapshot, id: string, batch: int, depth: nat)
    requires Indexed(plan)
    ensures var r := MoveOn(plan, env, s, id, batch, depth);
      && Grows(s, r.state, batch) && (r.error.None? ==> TakesStep(plan, env, s, r.state, id, batch))
      && (r.error.Some? ==> HasReason(plan, env, s, batch, r.error.value))
      && (Suffices(plan, id, depth) ==> r.error != Some(TooDeep))
      && (Suffices(plan, id, depth) ==> forall more | Suffices(plan, id, more) :: MoveOn(plan, env, s, id, batch, more) == r)
      && (Trapped(plan, env, id) ==> r.error == Some(TooDeep))
  {
    var r := MoveOn(plan, env, s, id, batch, depth);
    MoveOnGrows(plan, env, s, id, batch, depth);
    if r.error.None? {
      MoveOnMoves(plan, env, s, id, batch, depth);
      MoveOnTakes(plan, env, s, id, batch, depth);
    } else {
      ErrorHasReason(plan, env, s, id, batch, depth);
    }
    if Suffices(plan, id, depth) {
      forall more | Suffices(plan, id, more) ensures MoveOn(plan, env, s, id, batch, more) == r && r.error != Some(TooDeep) {
        MoveOnSuffices(plan, env, s, id, batch, depth, more);
      }
    }
    if Trapped(plan, env, id) { MoveOnTrapped(plan, env, s, id, batch, depth); }
  }
}
