/** What the flow engine's operations do to the state of an instance. */
module FlowEffects {
  import opened Prelude
  import opened Graphs
  import opened FlowPlan
  import opened FlowTransition
  import opened FlowStep
  import opened FlowTrace
  import opened FlowJoin
  import opened FlowSnapshot

  datatype EngineError =
    | TaskMissing | TaskNotPending | Unauthorized | NotRunning | NodeMissing | InvalidTarget | NoStartNode
    | Routing(cause: FlowError) | NoAvailablePath | UnsupportedNode | HookFailed | NoAssignees
    | NoWorker | WorkerFailed | TooDeep

  datatype WorkerResult = NotRegistered | Failed | Suspended | Completed(variables: Variables)

  /** What the engine asks from outside: rule evaluation, assignees, worker results. */
  datatype Environment = Environment(
    rules: (string, Variables) -> bool,
    assignees: (string, Variables) -> Option<seq<string>>,
    worker: (string, Variables) -> WorkerResult)

  predicate Sibling(t: FlowTask, other: FlowTask) { other.id != t.id && other.batch == t.batch }

  /** The tasks of the node and batch of task `i`. */
  function BatchOf(tasks: seq<FlowTask>, i: nat): seq<FlowTask>
    requires i < |tasks|
  {
    OfBatch(OfNode(tasks, tasks[i].node), tasks[i].batch)
  }

  predicate Arbitrated(node: NodeSpec, tasks: seq<FlowTask>, i: nat)
    requires i < |tasks|
  {
    SatisfiedToAdvance(node, BatchOf(tasks, i))
  }

  /** The tasks once task `i` has passed: with one vote its pending siblings at the node are skipped. */
  function AfterPass(tasks: seq<FlowTask>, i: nat, node: NodeSpec): (r: seq<FlowTask>)
    requires i < |tasks|
    ensures |r| == |tasks|
  {
    var passed := Decide(tasks, i, Passed);
    if node.sign.OneVote?
    then MarkPending(passed, t => Sibling(tasks[i], t) && t.node == tasks[i].node, Skipped)
    else passed
  }

  /** The tasks once task `i` was rejected: all other pending tasks of its batch are cancelled. */
  function AfterReject(tasks: seq<FlowTask>, i: nat): (r: seq<FlowTask>)
    requires i < |tasks|
    ensures |r| == |tasks|
  {
    MarkPending(Decide(tasks, i, Rejected), t => Sibling(tasks[i], t), Cancelled)
  }

  function AfterRevoke(tasks: seq<FlowTask>): (r: seq<FlowTask>)
    ensures |r| == |tasks|
  {
    MarkPending(tasks, t => true, Cancelled)
  }

  // ---------------------------------------------------------------- the same, task by task

  /** The task passed is Passed; a pending task of the same node and batch is skipped exactly if the node takes one vote;
      every other task is as it was. */
  ghost predicate Settles(a: seq<FlowTask>, b: seq<FlowTask>, i: nat, sign: SignRule)
    requires i < |a|
  {
    && |b| == |a| && b[i] == a[i].(status := Passed)
    && forall k | 0 <= k < |a| && k != i ::
         if a[k].status == Pending && a[k].node == a[i].node && a[k].batch == a[i].batch && sign == OneVote
         then b[k] == a[k].(status := Skipped) else b[k] == a[k]
  }

  /** The task rejected is Rejected; all other pending tasks of its batch are cancelled; the rest is as it was. */
  ghost predicate Sweeps(a: seq<FlowTask>, b: seq<FlowTask>, i: nat)
    requires i < |a|
  {
    && |b| == |a| && b[i] == a[i].(status := Rejected)
    && forall k | 0 <= k < |a| && k != i ::
         if a[k].status == Pending && a[k].batch == a[i].batch then b[k] == a[k].(status := Cancelled) else b[k] == a[k]
  }

  /** All pending tasks are cancelled; the rest is as it was. */
  ghost predicate Cancels(a: seq<FlowTask>, b: seq<FlowTask>) {
    |b| == |a| && forall k | 0 <= k < |a| ::
      if a[k].status == Pending then b[k] == a[k].(status := Cancelled) else b[k] == a[k]
  }

  ghost predicate DistinctTasks(tasks: seq<FlowTask>) {
    forall j, k | 0 <= j < k < |tasks| :: tasks[j].id != tasks[k].id
  }

  lemma PassSettles(tasks: seq<FlowTask>, i: nat, node: NodeSpec)
    requires i < |tasks| && DistinctTasks(tasks)
    ensures Settles(tasks, AfterPass(tasks, i, node), i, node.sign)
  {
  }

  lemma RejectSweeps(tasks: seq<FlowTask>, i: nat)
    requires i < |tasks| && DistinctTasks(tasks)
    ensures Sweeps(tasks, AfterReject(tasks, i), i)
  {
  }

  lemma RevokeCancels(tasks: seq<FlowTask>)
    ensures Cancels(tasks, AfterRevoke(tasks))
  {
  }

  lemma PassKeepsTasks(s: Snapshot, i: nat, node: NodeSpec)
    requires Sound(s) && i < |s.tasks| && s.tasks[i].status.Pending?
    ensures var after := AfterPass(s.tasks, i, node);
      TasksKept(s.tasks, after) && PendingAtTop(after) && FreshIds(s.(tasks := after))
    ensures forall k | 0 <= k < |s.tasks| :: AfterPass(s.tasks, i, node)[k].batch == s.tasks[k].batch <= s.tasks[i].batch
    ensures forall k | 0 <= k < |s.tasks| && AfterPass(s.tasks, i, node)[k].status.Pending? :: s.tasks[k].status.Pending?
  {
  }

  /** The turn of a task: the tasks of its node and batch. */
  lemma TurnExactly(tasks: seq<FlowTask>, i: nat, t: FlowTask)
    requires i < |tasks|
    ensures t in BatchOf(tasks, i) <==> t in tasks && SameTurn(tasks[i], t)
  {
    OfNodeExactly(tasks, tasks[i].node, t);
    OfBatchExactly(OfNode(tasks, tasks[i].node), tasks[i].batch, t);
  }

  /** Passing one task satisfies a one-vote node at once, any other node when everybody has passed. */
  lemma ArbitrationByRule(node: NodeSpec, tasks: seq<FlowTask>, i: nat)
    requires i < |tasks|
    ensures Arbitrated(node, Decide(tasks, i, Passed), i) <==>
      node.sign.OneVote? || forall k | 0 <= k < |tasks| && k != i && SameTurn(tasks[i], tasks[k]) :: tasks[k].status.Passed?
  {
    var decided := Decide(tasks, i, Passed);
    var turn := BatchOf(decided, i);
    forall k | 0 <= k < |tasks| && SameTurn(tasks[i], tasks[k]) ensures decided[k] in turn {
      TurnExactly(decided, i, decided[k]);
    }
    assert SameTurn(tasks[i], tasks[i]);
    var j :| 0 <= j < |turn| && turn[j] == decided[i];
    assert turn[j].status.Passed?;
    if forall k | 0 <= k < |tasks| && k != i && SameTurn(tasks[i], tasks[k]) :: tasks[k].status.Passed? {
      forall n | 0 <= n < |turn| ensures turn[n].status.Passed? {
        TurnExactly(decided, i, turn[n]);
        var k :| 0 <= k < |decided| && decided[k] == turn[n];
        assert SameTurn(tasks[i], tasks[k]);
      }
    } else {
      var k :| 0 <= k < |tasks| && k != i && SameTurn(tasks[i], tasks[k]) && !tasks[k].status.Passed?;
      assert decided[k] in turn;
      var n :| 0 <= n < |turn| && turn[n] == decided[k];
    }
  }

  predicate SameTurn(t: FlowTask, other: FlowTask) { other.node == t.node && other.batch == t.batch }

  /** With one vote nothing at the node is left pending. */
  lemma OneVoteSettlesNode(s: Snapshot, i: nat, node: NodeSpec)
    requires Sound(s) && i < |s.tasks| && node.sign.OneVote?
    ensures forall k | 0 <= k < |s.tasks| && SameTurn(s.tasks[i], s.tasks[k]) :: !AfterPass(s.tasks, i, node)[k].status.Pending?
  {
  }

  lemma RejectLeavesNonePending(s: Snapshot, i: nat)
    requires Sound(s) && i < |s.tasks| && s.tasks[i].status.Pending?
    ensures var after := AfterReject(s.tasks, i);
      TasksKept(s.tasks, after) && NonePending(after) && FreshIds(s.(tasks := after))
    ensures forall k | 0 <= k < |s.tasks| :: AfterReject(s.tasks, i)[k].batch == s.tasks[k].batch <= s.tasks[i].batch
  {
  }

  lemma RevokeLeavesNonePending(s: Snapshot)
    requires Sound(s)
    ensures var after := AfterRevoke(s.tasks);
      TasksKept(s.tasks, after) && NonePending(after) && FreshIds(s.(tasks := after))
  {
  }

  function FindTask(tasks: seq<FlowTask>, id: nat): (i: int)
    ensures -1 <= i < |tasks|
    ensures if i < 0 then forall k | 0 <= k < |tasks| :: tasks[k].id != id else tasks[i].id == id
  {
    if tasks == [] then -1 else
    var last := |tasks| - 1;
    var i := FindTask(tasks[..last], id);
    assert tasks == tasks[..last] + [tasks[last]];
    if i >= 0 then i else if tasks[last].id == id then last else -1
  }

  lemma FoundAt(tasks: seq<FlowTask>, i: nat)
    requires i < |tasks| && forall j, k | 0 <= j < k < |tasks| :: tasks[j].id != tasks[k].id
    ensures FindTask(tasks, tasks[i].id) == i
  {
  }

  /** Why an operation on a task is refused. */
  function Guard(s: Snapshot, id: nat, operator: string): Option<EngineError> {
    var i := FindTask(s.tasks, id);
    if i < 0 then Some(TaskMissing)
    else if !s.tasks[i].status.Pending? then Some(TaskNotPending)
    else if operator != "" && s.tasks[i].assignee != operator then Some(Unauthorized)
    else if s.status != Running then Some(NotRunning)
    else None
  }

  /** Why an operation on a task is refused, in terms of the task. */
  ghost predicate Refuses(s: Snapshot, id: nat, operator: string, e: EngineError) {
    match e
    case TaskMissing => forall k | 0 <= k < |s.tasks| :: s.tasks[k].id != id
    case TaskNotPending => exists k :: 0 <= k < |s.tasks| && s.tasks[k].id == id && s.tasks[k].status != Pending
    case Unauthorized => operator != "" &&
      exists k :: 0 <= k < |s.tasks| && s.tasks[k].id == id && s.tasks[k].status == Pending && s.tasks[k].assignee != operator
    case NotRunning => s.status != InstanceStatus.Running && exists k :: 0 <= k < |s.tasks| && MayAct(s.tasks[k], id, operator)
    case _ => false
  }

  /** The task is pending and the operator is its assignee; without an operator it is a worker's callback. */
  predicate MayAct(t: FlowTask, id: nat, operator: string) {
    t.id == id && t.status == Pending && (operator == "" || t.assignee == operator)
  }

  lemma GuardRefuses(s: Snapshot, id: nat, operator: string)
    requires DistinctTasks(s.tasks)
    ensures forall e :: Guard(s, id, operator) == Some(e) <==> Refuses(s, id, operator, e)
    ensures var i := FindTask(s.tasks, id);
      Guard(s, id, operator) == None <==> i >= 0 && s.status == InstanceStatus.Running && MayAct(s.tasks[i], id, operator)
  {
    var i := FindTask(s.tasks, id);
    if i >= 0 {
      forall k | 0 <= k < |s.tasks| && s.tasks[k].id == id ensures k == i {}
    }
  }

  /** Everybody else who was asked at the node in this batch has passed, or one vote is enough. */
  ghost predicate Suffice(tasks: seq<FlowTask>, i: nat, sign: SignRule)
    requires i < |tasks|
  {
    sign == OneVote || forall k | 0 <= k < |tasks| && k != i && tasks[k].node == tasks[i].node && tasks[k].batch == tasks[i].batch ::
      tasks[k].status == Passed
  }

  /** A pass settles the task (and with one vote its siblings); unless the node is satisfied that is all,
      else the step out of the node is taken within the same batch. */
  ghost predicate PassEffect(plan: ExecutionPlan, env: Environment, a: Snapshot, b: Snapshot, id: nat, patch: Variables) {
    var i := FindTask(a.tasks, id);
    0 <= i < |a.tasks| && a.tasks[i].node in plan.nodes &&
    var node := plan.nodes[a.tasks[i].node];
    var settled := a.(tasks := AfterPass(a.tasks, i, node), variables := a.variables + patch);
    if Arbitrated(node, Decide(a.tasks, i, Passed), i) then TakesStep(plan, env, settled, b, node.id, a.tasks[i].batch)
    else b == settled
  }

  /** Where a rejection goes: nowhere, to the chosen target if it may be one, else to the approval upstream, if any. */
  function RejectTarget(plan: ExecutionPlan, from: string, target: string, terminate: bool): Result<Option<NodeSpec>, EngineError>
    requires Indexed(plan) && GatewaysAcyclic(plan)
  {
    if terminate then Ok(None)
    else if target != "" then
      if target !in plan.nodes || !plan.nodes[target].CanRejectTo() then Err(InvalidTarget)
      else Ok(Some(plan.nodes[target]))
    else
      AcyclicEnds(Back(plan), from);
      DecidedWithin(plan, from);
      Ok(UpstreamApproval(plan, from))
  }

  /** The instance once task `i` was rejected and the target, if any, was given its pending tasks. */
  function AfterRejection(env: Environment, starter: string, s: Snapshot, i: nat, back: Option<NodeSpec>): Snapshot
    requires i < |s.tasks|
  {
    var swept := s.(tasks := AfterReject(s.tasks, i));
    match back
    case None => swept.(status := Turned)
    case Some(node) => ReopenedAt(env, starter, swept, node, s.tasks[i].batch + 1)
  }

  /** The target of a rejection becomes current and gets pending tasks: a start node one for the starter. */
  function ReopenedAt(env: Environment, starter: string, s: Snapshot, node: NodeSpec, batch: int): Snapshot {
    var moved := s.(currentNode := node.id);
    if node.kind.Start? then
      moved.(
        tasks := moved.tasks + MakeTasks(node.id, OneVote, batch, [starter], Pending, s.nextId),
        nextId := s.nextId + 1)
    else AfterApproval(env, moved, node, batch)
  }

  /** A rejection sweeps the batch and opens the target in the next one, or turns the instance down. */
  ghost predicate RejectEffect(plan: ExecutionPlan, env: Environment, starter: string, a: Snapshot, b: Snapshot, id: nat,
                               target: string, terminate: bool)
    requires Indexed(plan) && GatewaysAcyclic(plan)
  {
    var i := FindTask(a.tasks, id);
    0 <= i < |a.tasks| && a.tasks[i].node in plan.nodes &&
    var back := RejectTarget(plan, a.tasks[i].node, target, terminate);
    back.Ok?
    && (back.value.Some? && !back.value.value.kind.Start? ==> ApprovalError(env, back.value.value.id, a.variables).None?)
    && b == AfterRejection(env, starter, a, i, back.value)
  }

  /** Nothing of the old tasks is pending, and pending tasks are new, of the batch after the rejected task's. */
  ghost predicate OnlyNextBatchPends(a: Snapshot, b: Snapshot, batch: int) {
    && |a.tasks| <= |b.tasks| && NonePending(b.tasks[..|a.tasks|])
    && (forall k | |a.tasks| <= k < |b.tasks| :: b.tasks[k].status.Pending? && b.tasks[k].batch == batch + 1)
    && (if |b.tasks| == |a.tasks| then b.status == Turned else b.status == Running)
  }

  function AfterRevocation(plan: ExecutionPlan, starter: string, s: Snapshot, backToStarter: bool): Snapshot {
    var swept := s.(tasks := AfterRevoke(s.tasks));
    if backToStarter && plan.start.Some? then
      swept.(
        tasks := swept.tasks
          + MakeTasks(plan.start.value.id, OneVote, MaxBatchCode(s.tasks) + 1, [starter], Pending, s.nextId),
        currentNode := plan.start.value.id, nextId := s.nextId + 1)
    else swept.(status := Withdrawn)
  }

  lemma GrownKept(a: Snapshot, settled: Snapshot, b: Snapshot, batch: int)
    requires TasksKept(a.tasks, settled.tasks) && Grows(settled, b, batch) && |a.tasks| == |settled.tasks|
    ensures TasksKept(a.tasks, b.tasks)
  {
    forall i | 0 <= i < |a.tasks| ensures b.tasks[i] == settled.tasks[i] {
      assert b.tasks[..|settled.tasks|][i] == settled.tasks[i];
    }
  }

  /** Tasks were opened in a new batch, at least one, all pending. */
  ghost predicate Reopened(a: Snapshot, b: Snapshot, batch: int) {
    && |a.tasks| < |b.tasks| && Grows(a, b, batch) && b.status == a.status
    && forall k | |a.tasks| <= k < |b.tasks| :: b.tasks[k].status.Pending?
  }

  lemma ReopenedBy(a: Snapshot, b: Snapshot, node: string, sign: SignRule, batch: int, people: seq<string>)
    requires people != [] && b.status == a.status && b.nextId == a.nextId + |people|
    requires b.tasks == a.tasks + MakeTasks(node, sign, batch, people, Pending, a.nextId)
    ensures Reopened(a, b, batch)
  {
    Appended(a, b, node, sign, batch, people, Pending);
  }

  lemma RestartedSound(a: Snapshot, swept: Snapshot, b: Snapshot, i: nat, batch: int)
    requires Sound(a) && a.status == Running && i < |a.tasks| && a.tasks[i].status.Pending? && batch == a.tasks[i].batch + 1
    requires swept == a.(tasks := AfterReject(a.tasks, i)) && Reopened(swept, b, batch)
    ensures Sound(b) && Evolves(a, b) && OnlyNextBatchPends(a, b, a.tasks[i].batch)
  {
    RejectLeavesNonePending(a, i);
    GrowsKeepsSound(swept, b, batch);
    GrownKept(a, swept, b, batch);
  }

  lemma TurnedSound(a: Snapshot, b: Snapshot, i: nat)
    requires Sound(a) && a.status == Running && i < |a.tasks| && a.tasks[i].status.Pending?
    requires b == a.(tasks := AfterReject(a.tasks, i), status := Turned)
    ensures Sound(b) && Evolves(a, b) && OnlyNextBatchPends(a, b, a.tasks[i].batch)
  {
    RejectLeavesNonePending(a, i);
    assert b.tasks[..|a.tasks|] == b.tasks;
  }

  lemma GrowsSelf(a: Snapshot, batch: int)
    ensures Grows(a, a, batch)
  {
  }

  lemma PassWaits(plan: ExecutionPlan, env: Environment, a: Snapshot, settled: Snapshot, i: nat, patch: Variables)
    requires Sound(a) && a.status == Running && i < |a.tasks| && a.tasks[i].status.Pending? && a.tasks[i].node in plan.nodes
    requires settled == a.(tasks := AfterPass(a.tasks, i, plan.nodes[a.tasks[i].node]), variables := a.variables + patch)
    requires !Arbitrated(plan.nodes[a.tasks[i].node], Decide(a.tasks, i, Passed), i)
    ensures Sound(settled) && Evolves(a, settled) && PassEffect(plan, env, a, settled, a.tasks[i].id, patch)
  {
    PassKeepsTasks(a, i, plan.nodes[a.tasks[i].node]);
    FoundAt(a.tasks, i);
  }

  lemma PassedOn(plan: ExecutionPlan, env: Environment, a: Snapshot, settled: Snapshot, b: Snapshot, i: nat, patch: Variables)
    requires Sound(a) && a.status == Running && i < |a.tasks| && a.tasks[i].status.Pending? && a.tasks[i].node in plan.nodes
    requires settled == a.(tasks := AfterPass(a.tasks, i, plan.nodes[a.tasks[i].node]), variables := a.variables + patch)
    requires Arbitrated(plan.nodes[a.tasks[i].node], Decide(a.tasks, i, Passed), i) && Grows(settled, b, a.tasks[i].batch)
    requires TakesStep(plan, env, settled, b, plan.nodes[a.tasks[i].node].id, a.tasks[i].batch)
    ensures Sound(b) && Evolves(a, b) && PassEffect(plan, env, a, b, a.tasks[i].id, patch)
  {
    PassGrowsSound(a, settled, b, i, plan.nodes[a.tasks[i].node]);
    FoundAt(a.tasks, i);
  }

  lemma PassGrowsSound(a: Snapshot, settled: Snapshot, b: Snapshot, i: nat, node: NodeSpec)
    requires Sound(a) && a.status == Running && i < |a.tasks| && a.tasks[i].status.Pending?
    requires settled.tasks == AfterPass(a.tasks, i, node) && settled.nextId == a.nextId && settled.status == a.status
    requires Grows(settled, b, a.tasks[i].batch)
    ensures Sound(b) && Evolves(a, b)
  {
    PassKeepsTasks(a, i, node);
    GrowsKeepsSound(settled, b, a.tasks[i].batch);
    GrownKept(a, settled, b, a.tasks[i].batch);
  }

  lemma RevocationEvolves(plan: ExecutionPlan, starter: string, a: Snapshot, backToStarter: bool)
    requires Sound(a) && a.status == Running
    ensures var b := AfterRevocation(plan, starter, a, backToStarter); Sound(b) && Evolves(a, b)
  {
    var b, swept := AfterRevocation(plan, starter, a, backToStarter), a.(tasks := AfterRevoke(a.tasks));
    RevokeLeavesNonePending(a);
    if backToStarter && plan.start.Some? {
      var batch := MaxBatchCode(a.tasks) + 1;
      Appended(swept, b, plan.start.value.id, OneVote, batch, [starter], Pending);
      RevokedSound(a, swept, b, batch);
    }
  }

  lemma RevokedSound(a: Snapshot, swept: Snapshot, b: Snapshot, batch: int)
    requires Sound(a) && a.status == Running && swept == a.(tasks := AfterRevoke(a.tasks))
    requires batch == MaxBatchCode(a.tasks) + 1 && Grows(swept, b, batch)
    ensures Sound(b) && TasksKept(a.tasks, b.tasks)
  {
    RevokeLeavesNonePending(a);
    GrowsKeepsSound(swept, b, batch);
    GrownKept(a, swept, b, batch);
  }

  // ---------------------------------------------------------------- what moving on does

  ghost predicate SkipsRecorded(nodes: seq<NodeSpec>, from: nat, tasks: seq<FlowTask>) {
    from + |nodes| <= |tasks|
    && forall k | 0 <= k < |nodes| :: tasks[from + k].node == nodes[k].id && tasks[from + k].status.Skipped?
  }

  lemma SkipRecorded(nodes: seq<NodeSpec>, k: nat, from: nat, before: seq<FlowTask>, tasks: seq<FlowTask>)
    requires k < |nodes| && SkipsRecorded(nodes[..k], from, before) && |before| == from + k && |tasks| == |before| + 1
    requires before == tasks[..|before|] && tasks[|before|].node == nodes[k].id && tasks[|before|].status.Skipped?
    ensures SkipsRecorded(nodes[..k + 1], from, tasks)
  {
    var upTo, prefix := nodes[..k + 1], nodes[..k];
    forall j | 0 <= j < |upTo| ensures tasks[from + j].node == upTo[j].id && tasks[from + j].status.Skipped? {
      if j < k {
        assert prefix[j] == upTo[j];
        assert tasks[from + j] == before[from + j];
      } else {
        assert j == k && upTo[k] == nodes[k];
      }
    }
    assert SkipsRecorded(upTo, from, tasks);
  }

  /** A pending task was opened at the node. */
  ghost predicate Waits(a: Snapshot, b: Snapshot, node: string, batch: int) {
    exists k :: |a.tasks| <= k < |b.tasks| && b.tasks[k].node == node && b.tasks[k].status.Pending? && b.tasks[k].batch == batch
  }

  ghost predicate ApprovalsWait(nodes: seq<NodeSpec>, a: Snapshot, b: Snapshot, batch: int) {
    forall n {:trigger Waits(a, b, n.id, batch)} | n in nodes && n.kind.Approval? :: Waits(a, b, n.id, batch)
  }

  predicate Finishes(nodes: seq<NodeSpec>) {
    (exists k :: 0 <= k < |nodes| && nodes[k].kind == End) && forall k | 0 <= k < |nodes| :: nodes[k].kind != Approval
  }

  /** Every approval got pending tasks; an end without approvals beside it finished the instance. */
  ghost predicate Activated(nodes: seq<NodeSpec>, a: Snapshot, b: Snapshot, batch: int) {
    ApprovalsWait(nodes, a, b, batch) && (Finishes(nodes) ==> b.status == Finished)
  }

  /** Skipped branches are recorded first; a shut join stops there, else the ready nodes are activated. */
  ghost predicate Applied(d: Decision, a: Snapshot, b: Snapshot, batch: int) {
    && Grows(a, b, batch) && SkipsRecorded(d.skipped, |a.tasks|, b.tasks)
    && if d.blocked then |b.tasks| == |a.tasks| + |d.skipped| && b.status == a.status
       else d.ready != [] && Activated(d.ready, a, b, batch)
  }

  /** The gateways whose joins are open. */
  ghost function Open(plan: ExecutionPlan, tasks: seq<FlowTask>): set<string> {
    set v | v in plan.nodes && JoinOpen(plan, plan.nodes[v], tasks)
  }

  function IsIn(open: set<string>): string -> bool { v => v in open }

  /** The decision of the step out of `id`, for the tasks and variables at hand. */
  ghost predicate StepDecides(plan: ExecutionPlan, env: Environment, s: Snapshot, id: string, d: Decision) {
    && TransitionOf(plan, id, RulesWith(env, s.variables)).Ok?
    && DecidedInOrder(plan, id, RulesWith(env, s.variables), IsIn(Open(plan, s.tasks)), d)
  }

  ghost predicate StepFails(plan: ExecutionPlan, env: Environment, s: Snapshot, id: string) {
    Fails(plan, id, RulesWith(env, s.variables), IsIn(Open(plan, s.tasks)))
  }

  /** The step decision for the tasks and variables at hand was applied. */
  ghost predicate MovedOn(plan: ExecutionPlan, env: Environment, a: Snapshot, b: Snapshot, id: string, batch: int) {
    exists d :: StepDecides(plan, env, a, id, d) && Applied(d, a, b, batch)
  }

  // ---------------------------------------------------------------- the step, node by node

  /** One task per person, in order, and nothing else of the tasks. */
  ghost predicate Opens(a: Snapshot, b: Snapshot, node: string, sign: SignRule, batch: int, people: seq<string>, status: TaskStatus) {
    && b.nextId == a.nextId + |people| && |b.tasks| == |a.tasks| + |people| && b.tasks[..|a.tasks|] == a.tasks
    && forall k | 0 <= k < |people| ::
         b.tasks[|a.tasks| + k] == FlowTask(a.nextId + k, node, batch, people[k], sign, status)
  }

  /** Entering a node: an approval gets one pending task per assignee, of whom there must be some. A copy gets one passed
      task per receiver, and its own step is taken. A worker leaves a pending task while it works on; done, a passed one,
      its variables, and its step is taken. An end finishes the instance unless an approval waits beside it. */
  ghost predicate Serves(plan: ExecutionPlan, env: Environment, a: Snapshot, b: Snapshot, n: NodeSpec, waits: bool, batch: int) {
    match n.kind
    case End => b == a.(currentNode := n.id, status := if waits then a.status else InstanceStatus.Finished)
    case Approval => ServesApproval(a, b, n, env.assignees(n.id, a.variables), batch)
    case CarbonCopy => ServesCopy(plan, env, a, b, n, env.assignees(n.id, a.variables), batch)
    case Automatic => ServesWorker(plan, env, a, b, n, env.worker(n.id, a.variables), batch)
    case _ => false
  }

  ghost predicate ServesApproval(a: Snapshot, b: Snapshot, n: NodeSpec, people: Option<seq<string>>, batch: int) {
    && people.Some? && people.value != [] && Opens(a, b, n.id, n.sign, batch, people.value, Pending)
    && b == a.(tasks := b.tasks, nextId := b.nextId, currentNode := n.id)
  }

  ghost predicate ServesCopy(plan: ExecutionPlan, env: Environment, a: Snapshot, b: Snapshot, n: NodeSpec,
                             people: Option<seq<string>>, batch: int) {
    people.Some? && exists c :: Done(a, c, n, people.value, a.variables, batch) && MovedOn(plan, env, c, b, n.id, batch)
  }

  /** The node's work is done: one passed task per person, and these variables. */
  ghost predicate Done(a: Snapshot, c: Snapshot, n: NodeSpec, people: seq<string>, variables: Variables, batch: int) {
    && Opens(a, c, n.id, n.sign, batch, people, Passed)
    && c == a.(tasks := c.tasks, nextId := c.nextId, currentNode := n.id, variables := variables)
  }

  ghost predicate ServesWorker(plan: ExecutionPlan, env: Environment, a: Snapshot, b: Snapshot, n: NodeSpec,
                               result: WorkerResult, batch: int) {
    match result
    case Suspended =>
      && Opens(a, b, n.id, n.sign, batch, ["system"], Pending)
      && b == a.(tasks := b.tasks, nextId := b.nextId, currentNode := n.id)
    case Completed(patch) =>
      exists c :: Done(a, c, n, ["system"], a.variables + patch, batch) && MovedOn(plan, env, c, b, n.id, batch)
    case _ => false
  }

  /** Skipped branches leave one skipped task each, in order. */
  ghost predicate SkipsOnly(a: Snapshot, b: Snapshot, nodes: seq<NodeSpec>, batch: int) {
    && b == a.(tasks := b.tasks, nextId := a.nextId + |nodes|)
    && |b.tasks| == |a.tasks| + |nodes| && b.tasks[..|a.tasks|] == a.tasks
    && forall k | 0 <= k < |nodes| ::
         b.tasks[|a.tasks| + k] == FlowTask(a.nextId + k, nodes[k].id, batch, "system", nodes[k].sign, Skipped)
  }

  ghost predicate ServedInOrder(plan: ExecutionPlan, env: Environment, states: seq<Snapshot>, nodes: seq<NodeSpec>, batch: int) {
    && |states| == |nodes| + 1
    && forall k: nat {:trigger ServedAt(plan, env, states, nodes, k, batch)} | k < |nodes| ::
         ServedAt(plan, env, states, nodes, k, batch)
  }

  ghost predicate ServedAt(plan: ExecutionPlan, env: Environment, states: seq<Snapshot>, nodes: seq<NodeSpec>, k: nat, batch: int)
    requires k < |nodes| && |states| == |nodes| + 1
  {
    Serves(plan, env, states[k], states[k + 1], nodes[k], exists j :: 0 <= j < |nodes| && nodes[j].kind == Approval, batch)
  }

  ghost predicate StepBy(plan: ExecutionPlan, env: Environment, a: Snapshot, b: Snapshot, id: string, batch: int,
                         d: Decision, states: seq<Snapshot>) {
    && StepDecides(plan, env, a, id, d) && |states| > 0 && SkipsOnly(a, states[0], d.skipped, batch)
    && states[|states| - 1] == b
    && if d.blocked then |states| == 1 else d.ready != [] && ServedInOrder(plan, env, states, d.ready, batch)
  }

  /** The whole of a step: skips are recorded, a shut join stops it there, else each ready node is served in turn. */
  ghost predicate StepTaken(plan: ExecutionPlan, env: Environment, a: Snapshot, b: Snapshot, id: string, batch: int) {
    exists d, states :: StepBy(plan, env, a, b, id, batch, d, states)
  }

  /** The step was taken, and what it led to is at work. */
  ghost predicate TakesStep(plan: ExecutionPlan, env: Environment, a: Snapshot, b: Snapshot, id: string, batch: int) {
    MovedOn(plan, env, a, b, id, batch) && StepTaken(plan, env, a, b, id, batch)
  }

  lemma WaitsStill(a: Snapshot, mid: Snapshot, b: Snapshot, node: string, batch: int)
    requires Waits(a, mid, node, batch) && Grows(mid, b, batch)
    ensures Waits(a, b, node, batch)
  {
    var k :| |a.tasks| <= k < |mid.tasks| && mid.tasks[k].node == node && mid.tasks[k].status.Pending?
      && mid.tasks[k].batch == batch;
    assert b.tasks[..|mid.tasks|][k] == b.tasks[k];
  }

  lemma WaitsSince(a: Snapshot, mid: Snapshot, b: Snapshot, node: string, batch: int)
    requires |a.tasks| <= |mid.tasks| && Waits(mid, b, node, batch)
    ensures Waits(a, b, node, batch)
  {
  }

  lemma ApprovalWaits(env: Environment, a: Snapshot, b: Snapshot, node: NodeSpec, batch: int)
    requires b == AfterApproval(env, a, node, batch) && ApprovalError(env, node.id, a.variables).None?
    ensures Waits(a, b, node.id, batch)
  {
    assert b.tasks[|a.tasks|].node == node.id;
  }

  lemma StillWaiting(nodes: seq<NodeSpec>, k: nat, a: Snapshot, mid: Snapshot, b: Snapshot, batch: int)
    requires k < |nodes| && ApprovalsWait(nodes[..k], a, mid, batch) && Grows(mid, b, batch) && |a.tasks| <= |mid.tasks|
    requires nodes[k].kind.Approval? ==> Waits(mid, b, nodes[k].id, batch)
    ensures ApprovalsWait(nodes[..k + 1], a, b, batch)
  {
    forall n | n in nodes[..k + 1] && n.kind.Approval? ensures Waits(a, b, n.id, batch) {
      if n in nodes[..k] {
        assert Waits(a, mid, n.id, batch);
        WaitsStill(a, mid, b, n.id, batch);
      } else {
        assert n == nodes[k];
        WaitsSince(a, mid, b, n.id, batch);
      }
    }
  }

  lemma SkipsThenActivated(d: Decision, a: Snapshot, mid: Snapshot, b: Snapshot, batch: int)
    requires !d.blocked && d.ready != [] && Grows(a, mid, batch) && Grows(mid, b, batch) && Grows(a, b, batch)
    requires |mid.tasks| == |a.tasks| + |d.skipped| && SkipsRecorded(d.skipped, |a.tasks|, mid.tasks)
    requires Activated(d.ready, mid, b, batch)
    ensures Applied(d, a, b, batch)
  {
    forall k | 0 <= k < |d.skipped|
      ensures b.tasks[|a.tasks| + k].node == d.skipped[k].id && b.tasks[|a.tasks| + k].status.Skipped?
    {
      assert b.tasks[..|mid.tasks|][|a.tasks| + k] == mid.tasks[|a.tasks| + k];
    }
    forall n | n in d.ready && n.kind.Approval? ensures Waits(a, b, n.id, batch) {
      assert Waits(mid, b, n.id, batch);
      WaitsSince(a, mid, b, n.id, batch);
    }
  }

  function RulesWith(env: Environment, variables: Variables): string -> bool {
    rule => env.rules(rule, variables)
  }

  function ApprovalError(env: Environment, id: string, variables: Variables): Option<EngineError> {
    match env.assignees(id, variables)
    case None => Some(HookFailed)
    case Some(people) => if people == [] then Some(NoAssignees) else None
  }

  function AfterApproval(env: Environment, s: Snapshot, node: NodeSpec, batch: int): Snapshot {
    match env.assignees(node.id, s.variables)
    case None => s
    case Some(people) =>
      s.(tasks := s.tasks + MakeTasks(node.id, node.sign, batch, people, Pending, s.nextId),
         nextId := s.nextId + |people|)
  }
}
