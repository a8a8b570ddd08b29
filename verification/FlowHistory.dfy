/** Every history of a flow instance, built from what its operations do, and what all of them keep. */
module FlowHistory {
  import opened Prelude
  import opened Graphs
  import opened FlowPlan
  import opened FlowTrace
  import opened FlowJoin
  import opened FlowSnapshot
  import opened FlowEffects

  datatype Operation =
    | Start(initial: Variables)
    | Pass(id: nat, operator: string, patch: Variables)
    | Reject(id: nat, target: string, terminate: bool)
    | Revoke(operator: string, backToStarter: bool)

  /** What an instance runs on. */
  datatype Setting = Setting(plan: ExecutionPlan, env: Environment, starter: string)

  ghost predicate Usable(x: Setting) { Indexed(x.plan) && GatewaysAcyclic(x.plan) }

  ghost predicate Named(start: Option<NodeSpec>) { start.Some? && start.value.id != "" }

  /** What an operation does when it is not refused. */
  ghost predicate Takes(x: Setting, op: Operation, a: Snapshot, b: Snapshot)
    requires Usable(x)
  {
    match op
    case Start(initial) =>
      && a == NEW && Named(x.plan.start)
      && TakesStep(x.plan, x.env, Begun(x.plan, initial), b, x.plan.start.value.id, 1)
    case Pass(id, operator, patch) => Guard(a, id, operator).None? && PassEffect(x.plan, x.env, a, b, id, patch)
    case Reject(id, target, terminate) =>
      Guard(a, id, "").None? && RejectEffect(x.plan, x.env, x.starter, a, b, id, target, terminate)
    case Revoke(operator, backToStarter) =>
      && a.status == Running && (operator == "" || operator == x.starter) && (backToStarter ==> Named(x.plan.start))
      && b == AfterRevocation(x.plan, x.starter, a, backToStarter)
  }

  function Begun(plan: ExecutionPlan, initial: Variables): Snapshot
    requires plan.start.Some?
  {
    NEW.(currentNode := plan.start.value.id, variables := initial)
  }

  /** One operation: it takes effect, or it is refused and leaves everything as it was. */
  ghost predicate Step(x: Setting, op: Operation, a: Snapshot, b: Snapshot)
    requires Usable(x)
  {
    b == a || Takes(x, op, a, b)
  }

  // ---------------------------------------------------------------- what one operation keeps

  lemma MovedGrows(plan: ExecutionPlan, env: Environment, a: Snapshot, b: Snapshot, id: string, batch: int)
    requires MovedOn(plan, env, a, b, id, batch)
    ensures Grows(a, b, batch)
  {
    var d :| StepDecides(plan, env, a, id, d) && Applied(d, a, b, batch);
  }

  lemma StartEvolves(x: Setting, initial: Variables, b: Snapshot)
    requires Usable(x) && Takes(x, Operation.Start(initial), NEW, b)
    ensures Evolves(NEW, b) && Sound(b)
  {
    MovedGrows(x.plan, x.env, Begun(x.plan, initial), b, x.plan.start.value.id, 1);
    GrowsKeepsSound(Begun(x.plan, initial), b, 1);
  }

  lemma GuardPassed(s: Snapshot, id: nat, operator: string)
    requires Guard(s, id, operator).None?
    ensures var i := FindTask(s.tasks, id); 0 <= i < |s.tasks| && s.tasks[i].status.Pending? && s.status == Running
  {
  }

  lemma PassEvolves(x: Setting, op: Operation, a: Snapshot, b: Snapshot)
    requires Usable(x) && op.Pass? && Takes(x, op, a, b) && Sound(a)
    ensures Evolves(a, b) && Sound(b)
  {
    GuardPassed(a, op.id, op.operator);
    var i := FindTask(a.tasks, op.id);
    var node := x.plan.nodes[a.tasks[i].node];
    var settled := a.(tasks := AfterPass(a.tasks, i, node), variables := a.variables + op.patch);
    if Arbitrated(node, Decide(a.tasks, i, Passed), i) {
      MovedGrows(x.plan, x.env, settled, b, node.id, a.tasks[i].batch);
      PassGrowsSound(a, settled, b, i, node);
    } else {
      PassWaits(x.plan, x.env, a, settled, i, op.patch);
    }
  }

  lemma RejectionKeeps(env: Environment, starter: string, a: Snapshot, i: nat, back: Option<NodeSpec>)
    requires Sound(a) && a.status == Running && i < |a.tasks| && a.tasks[i].status.Pending?
    requires back.Some? && !back.value.kind.Start? ==> ApprovalError(env, back.value.id, a.variables).None?
    ensures var b := AfterRejection(env, starter, a, i, back);
      Sound(b) && Evolves(a, b) && OnlyNextBatchPends(a, b, a.tasks[i].batch)
  {
    var b := AfterRejection(env, starter, a, i, back);
    if back.None? {
      TurnedSound(a, b, i);
    } else {
      RejectionReopens(env, starter, a, i, back.value);
    }
  }

  lemma RejectionReopens(env: Environment, starter: string, a: Snapshot, i: nat, node: NodeSpec)
    requires Sound(a) && a.status == Running && i < |a.tasks| && a.tasks[i].status.Pending?
    requires !node.kind.Start? ==> ApprovalError(env, node.id, a.variables).None?
    ensures var b := AfterRejection(env, starter, a, i, Some(node));
      Sound(b) && Evolves(a, b) && OnlyNextBatchPends(a, b, a.tasks[i].batch)
  {
    var b, batch := AfterRejection(env, starter, a, i, Some(node)), a.tasks[i].batch + 1;
    var swept := a.(tasks := AfterReject(a.tasks, i));
    var moved := swept.(currentNode := node.id);
    if node.kind.Start? {
      ReopenedBy(moved, b, node.id, OneVote, batch, [starter]);
    } else {
      ReopenedBy(moved, b, node.id, node.sign, batch, env.assignees(node.id, a.variables).value);
    }
    RestartedSound(a, swept, b, i, batch);
  }

  lemma RejectEvolves(x: Setting, op: Operation, a: Snapshot, b: Snapshot)
    requires Usable(x) && op.Reject? && Takes(x, op, a, b) && Sound(a)
    ensures Evolves(a, b) && Sound(b)
  {
    GuardPassed(a, op.id, "");
    var i := FindTask(a.tasks, op.id);
    RejectionKeeps(x.env, x.starter, a, i, RejectTarget(x.plan, a.tasks[i].node, op.target, op.terminate).value);
  }

  /** Every operation, refused or not, keeps the instance sound, keeps decided tasks, and leaves a stopped instance
      alone. */
  lemma StepEvolves(x: Setting, op: Operation, a: Snapshot, b: Snapshot)
    requires Usable(x) && Step(x, op, a, b) && Sound(a)
    ensures Evolves(a, b) && Sound(b)
  {
    if b != a {
      match op
      case Start(initial) => StartEvolves(x, initial, b);
      case Pass(_, _, _) => PassEvolves(x, op, a, b);
      case Reject(_, _, _) => RejectEvolves(x, op, a, b);
      case Revoke(_, back) => RevocationEvolves(x.plan, x.starter, a, back);
    }
  }

  // ---------------------------------------------------------------- histories

  /** From a new instance on, each state follows from the one before by an operation. */
  ghost predicate Lived(x: Setting, ops: seq<Operation>, h: seq<Snapshot>)
    requires Usable(x)
  {
    && |h| == |ops| + 1 && h[0] == NEW
    && forall k: nat {:trigger StepAt(x, ops, h, k)} | k < |ops| :: StepAt(x, ops, h, k)
  }

  ghost predicate StepAt(x: Setting, ops: seq<Operation>, h: seq<Snapshot>, k: nat)
    requires Usable(x) && k < |ops| && |h| == |ops| + 1
  {
    Step(x, ops[k], h[k], h[k + 1])
  }

  /** In every history all pending tasks carry the instance's highest batch code, and none is pending once the
      instance was turned down or withdrawn. */
  lemma {:induction false} HistorySound(x: Setting, ops: seq<Operation>, h: seq<Snapshot>, k: nat)
    requires Usable(x) && Lived(x, ops, h) && k < |h|
    ensures Sound(h[k])
  {
    if k > 0 {
      HistorySound(x, ops, h, k - 1);
      assert StepAt(x, ops, h, k - 1);
      StepEvolves(x, ops[k - 1], h[k - 1], h[k]);
    }
  }

  /** No task is removed or exchanged, decided tasks are unchanged, and a stopped instance is as it was. */
  ghost predicate Preserved(a: Snapshot, b: Snapshot) {
    && TasksKept(a.tasks, b.tasks) && (!a.status.Running? ==> b == a)
    && forall k | 0 <= k < |a.tasks| && !a.tasks[k].status.Pending? :: b.tasks[k] == a.tasks[k]
  }

  /** In every history decided tasks keep their status for ever, and an instance that stopped running is frozen. */
  lemma {:induction false} HistoryKept(x: Setting, ops: seq<Operation>, h: seq<Snapshot>, i: nat, j: nat)
    requires Usable(x) && Lived(x, ops, h) && i <= j < |h|
    ensures Preserved(h[i], h[j])
  {
    if i < j {
      HistoryKept(x, ops, h, i, j - 1);
      EvolvesAt(x, ops, h, j - 1);
      KeptThrough(h[i], h[j - 1], h[j]);
    }
  }

  lemma EvolvesAt(x: Setting, ops: seq<Operation>, h: seq<Snapshot>, k: nat)
    requires Usable(x) && Lived(x, ops, h) && k < |ops|
    ensures Evolves(h[k], h[k + 1])
  {
    HistorySound(x, ops, h, k);
    assert StepAt(x, ops, h, k);
    StepEvolves(x, ops[k], h[k], h[k + 1]);
  }

  lemma KeptThrough(a: Snapshot, b: Snapshot, c: Snapshot)
    requires Preserved(a, b) && Evolves(b, c)
    ensures Preserved(a, c)
  {
  }

  ghost predicate AtMost(tasks: seq<FlowTask>, batch: int) { forall n | 0 <= n < |tasks| :: tasks[n].batch <= batch }

  /** In every history, after a rejection that took effect the only pending tasks are new ones, in a batch above all
      that were there before; without any the instance is turned down. */
  lemma HistoryRejects(x: Setting, ops: seq<Operation>, h: seq<Snapshot>, k: nat)
    requires Usable(x) && Lived(x, ops, h) && k < |ops| && ops[k].Reject? && h[k + 1] != h[k]
    ensures exists batch :: OnlyNextBatchPends(h[k], h[k + 1], batch) && AtMost(h[k].tasks, batch)
  {
    var a, op := h[k], ops[k];
    HistorySound(x, ops, h, k);
    assert StepAt(x, ops, h, k);
    GuardPassed(a, op.id, "");
    var i := FindTask(a.tasks, op.id);
    RejectionKeeps(x.env, x.starter, a, i, RejectTarget(x.plan, a.tasks[i].node, op.target, op.terminate).value);
    assert OnlyNextBatchPends(h[k], h[k + 1], a.tasks[i].batch) && AtMost(h[k].tasks, a.tasks[i].batch);
  }

  /** The last state of some history. */
  ghost predicate Reachable(x: Setting, s: Snapshot)
    requires Usable(x)
  {
    exists ops, h {:trigger Lived(x, ops, h)} :: Lived(x, ops, h) && h[|ops|] == s
  }

  lemma NewReachable(x: Setting)
    requires Usable(x)
    ensures Reachable(x, NEW)
  {
    assert Lived(x, [], [NEW]);
  }

  lemma LivesOn(x: Setting, ops: seq<Operation>, h: seq<Snapshot>, op: Operation, b: Snapshot)
    requires Usable(x) && Lived(x, ops, h) && Step(x, op, h[|ops|], b)
    ensures Lived(x, ops + [op], h + [b]) && (h + [b])[|ops + [op]|] == b
  {
    forall k: nat | k < |ops + [op]| ensures StepAt(x, ops + [op], h + [b], k) { StepsOn(x, ops, h, op, b, k); }
  }

  lemma StepsOn(x: Setting, ops: seq<Operation>, h: seq<Snapshot>, op: Operation, b: Snapshot, k: nat)
    requires Usable(x) && Lived(x, ops, h) && Step(x, op, h[|ops|], b) && k <= |ops|
    ensures StepAt(x, ops + [op], h + [b], k)
  {
    if k < |ops| {
      assert StepAt(x, ops, h, k);
      SameStep(x, ops, h, ops + [op], h + [b], k, k);
    } else {
      SameStep(x, [op], [h[|ops|], b], ops + [op], h + [b], 0, k);
    }
  }

  lemma SameStep(x: Setting, ops: seq<Operation>, h: seq<Snapshot>, ops': seq<Operation>, h': seq<Snapshot>, k: nat, k': nat)
    requires Usable(x) && k < |ops| && |h| == |ops| + 1 && k' < |ops'| && |h'| == |ops'| + 1 && StepAt(x, ops, h, k)
    requires ops'[k'] == ops[k] && h'[k'] == h[k] && h'[k' + 1] == h[k + 1]
    ensures StepAt(x, ops', h', k')
  {
  }

  lemma StepReaches(x: Setting, op: Operation, a: Snapshot, b: Snapshot)
    requires Usable(x) && Reachable(x, a) && Step(x, op, a, b)
    ensures Reachable(x, b)
  {
    var ops, h :| Lived(x, ops, h) && h[|ops|] == a;
    LivesOn(x, ops, h, op, b);
    LastReached(x, ops + [op], h + [b]);
  }

  lemma LastReached(x: Setting, ops: seq<Operation>, h: seq<Snapshot>)
    requires Usable(x) && Lived(x, ops, h)
    ensures Reachable(x, h[|ops|])
  {
  }

  lemma Started(x: Setting, initial: Variables, b: Snapshot)
    requires Usable(x) && Named(x.plan.start)
    requires TakesStep(x.plan, x.env, Begun(x.plan, initial), b, x.plan.start.value.id, 1)
    ensures Takes(x, Operation.Start(initial), NEW, b) && Reachable(x, b)
  {
    NewReachable(x);
    StepReaches(x, Operation.Start(initial), NEW, b);
  }

  lemma ReachableSound(x: Setting, s: Snapshot)
    requires Usable(x) && Reachable(x, s)
    ensures Sound(s)
  {
    var ops, h :| Lived(x, ops, h) && h[|ops|] == s;
    HistorySound(x, ops, h, |ops|);
  }
}
