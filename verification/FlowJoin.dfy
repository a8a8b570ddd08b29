/** Sign arbitration and the join barrier. */
module FlowJoin {
  import opened Prelude
  import opened Graphs
  import opened FlowPlan
  import opened FlowStep
  import opened FlowTrace

  datatype TaskStatus = Pending | Passed | Rejected | SystemPassed | Cancelled | Skipped

  datatype FlowTask = FlowTask(
    id: nat, node: string, batch: int, assignee: string, sign: SignRule, status: TaskStatus)

  // ---------------------------------------------------------------- arbitration

  /** One vote: somebody passed. Anything else, also a rule without an arbitrator: everybody passed. */
  predicate Satisfies(sign: SignRule, tasks: seq<FlowTask>) {
    if sign.OneVote? then exists k :: 0 <= k < |tasks| && tasks[k].status.Passed?
    else forall k | 0 <= k < |tasks| :: tasks[k].status.Passed?
  }

  predicate SatisfiedToAdvance(n: NodeSpec, tasks: seq<FlowTask>) { tasks != [] && Satisfies(n.sign, tasks) }

  function OfNode(tasks: seq<FlowTask>, node: string): seq<FlowTask> {
    if tasks == [] then [] else
    var rest, last := OfNode(tasks[..|tasks| - 1], node), tasks[|tasks| - 1];
    if last.node == node then rest + [last] else rest
  }

  function OfBatch(tasks: seq<FlowTask>, batch: int): seq<FlowTask> {
    if tasks == [] then [] else
    var rest, last := OfBatch(tasks[..|tasks| - 1], batch), tasks[|tasks| - 1];
    if last.batch == batch then rest + [last] else rest
  }

  lemma {:induction false} OfNodeExactly(tasks: seq<FlowTask>, node: string, t: FlowTask)
    ensures t in OfNode(tasks, node) <==> t in tasks && t.node == node
  {
    if tasks != [] {
      OfNodeExactly(tasks[..|tasks| - 1], node, t);
      assert tasks == tasks[..|tasks| - 1] + [tasks[|tasks| - 1]];
    }
  }

  lemma {:induction false} OfBatchExactly(tasks: seq<FlowTask>, batch: int, t: FlowTask)
    ensures t in OfBatch(tasks, batch) <==> t in tasks && t.batch == batch
  {
    if tasks != [] {
      OfBatchExactly(tasks[..|tasks| - 1], batch, t);
      assert tasks == tasks[..|tasks| - 1] + [tasks[|tasks| - 1]];
    }
  }

  function LatestBatch(tasks: seq<FlowTask>): int
    requires tasks != []
  {
    var rest, last := tasks[..|tasks| - 1], tasks[|tasks| - 1];
    if rest == [] || last.batch > LatestBatch(rest) then last.batch else LatestBatch(rest)
  }

  lemma {:induction false} LatestIsHighest(tasks: seq<FlowTask>)
    requires tasks != []
    ensures exists t :: t in tasks && t.batch == LatestBatch(tasks)
    ensures forall t | t in tasks :: t.batch <= LatestBatch(tasks)
  {
    var rest, last := tasks[..|tasks| - 1], tasks[|tasks| - 1];
    assert tasks == rest + [last];
    assert last in tasks;
    if rest != [] {
      LatestIsHighest(rest);
      var t :| t in rest && t.batch == LatestBatch(rest);
      assert t in tasks;
    }
  }

  /** The tasks of a node's latest batch. */
  function Latest(tasks: seq<FlowTask>, node: string): seq<FlowTask> {
    var mine := OfNode(tasks, node);
    if mine == [] then [] else OfBatch(mine, LatestBatch(mine))
  }

  /** Exactly the node's tasks than which no task of the node has a higher batch code. */
  lemma LatestExactly(tasks: seq<FlowTask>, node: string, t: FlowTask)
    ensures t in Latest(tasks, node) <==>
      t in tasks && t.node == node && forall u | u in tasks && u.node == node :: u.batch <= t.batch
  {
    var mine := OfNode(tasks, node);
    forall u ensures u in mine <==> u in tasks && u.node == node { OfNodeExactly(tasks, node, u); }
    if mine != [] {
      LatestIsHighest(mine);
      OfBatchExactly(mine, LatestBatch(mine), t);
    }
  }

  // ---------------------------------------------------------------- the join barrier

  predicate Advanced(n: NodeSpec, tasks: seq<FlowTask>) { SatisfiedToAdvance(n, Latest(tasks, n.id)) }

  predicate SkippedLately(n: NodeSpec, tasks: seq<FlowTask>) {
    exists k :: 0 <= k < |Latest(tasks, n.id)| && Latest(tasks, n.id)[k].status.Skipped?
  }

  /** A preceding activity no longer holds the join back. */
  predicate Resolved(kind: NodeType, n: NodeSpec, tasks: seq<FlowTask>) {
    OfNode(tasks, n.id) != [] && (Advanced(n, tasks) || (kind.Inclusive? && SkippedLately(n, tasks)))
  }

  predicate Synchronizes(plan: ExecutionPlan, join: NodeSpec) {
    (join.kind.Parallel? || join.kind.Inclusive?) && |In(plan, join.id)| > 1
  }

  /** A parallel join opens when every preceding activity has advanced in its latest batch; an inclusive
      one when each has advanced or was skipped, and at least one advanced unless there is none. */
  ghost predicate JoinOpen(plan: ExecutionPlan, join: NodeSpec, tasks: seq<FlowTask>) {
    Synchronizes(plan, join) ==>
      && (forall n {:trigger Precedes(plan, join.id, n)} | Precedes(plan, join.id, n) :: Resolved(join.kind, n, tasks))
      && (join.kind.Inclusive? && (exists n :: Precedes(plan, join.id, n)) ==>
            exists n :: Precedes(plan, join.id, n) && Advanced(n, tasks))
  }

  // ---------------------------------------------------------------- the same by the statuses of tasks

  /** A task of the node with its highest batch code. */
  ghost predicate IsLatest(tasks: seq<FlowTask>, node: string, t: FlowTask) {
    t in tasks && t.node == node && forall u | u in tasks && u.node == node :: u.batch <= t.batch
  }

  /** Of the latest tasks, one with one vote and all otherwise have passed, and there are some. */
  ghost predicate MeetsRule(n: NodeSpec, tasks: seq<FlowTask>) {
    && (exists t :: IsLatest(tasks, n.id, t))
    && if n.sign == OneVote then exists t :: IsLatest(tasks, n.id, t) && t.status == Passed
       else forall t | IsLatest(tasks, n.id, t) :: t.status == Passed
  }

  ghost predicate WasSkipped(n: NodeSpec, tasks: seq<FlowTask>) {
    exists t :: IsLatest(tasks, n.id, t) && t.status == Skipped
  }

  /** Nothing but parallel and inclusive gateways with several ways in waits: a parallel one until every activity leading to
      it meets its rule, an inclusive one until each does or was skipped, and one does if there is any. */
  ghost predicate JoinRule(plan: ExecutionPlan, join: NodeSpec, tasks: seq<FlowTask>) {
    && (join.kind == Parallel && |In(plan, join.id)| > 1 ==>
          forall n {:trigger Precedes(plan, join.id, n)} | Precedes(plan, join.id, n) :: MeetsRule(n, tasks))
    && (join.kind == Inclusive && |In(plan, join.id)| > 1 ==>
          && (forall n {:trigger Precedes(plan, join.id, n)} | Precedes(plan, join.id, n) ::
                MeetsRule(n, tasks) || WasSkipped(n, tasks))
          && ((exists n :: Precedes(plan, join.id, n)) ==> exists n :: Precedes(plan, join.id, n) && MeetsRule(n, tasks)))
  }

  lemma AdvancedByStatus(n: NodeSpec, tasks: seq<FlowTask>)
    ensures Advanced(n, tasks) <==> MeetsRule(n, tasks)
    ensures SkippedLately(n, tasks) <==> WasSkipped(n, tasks)
    ensures MeetsRule(n, tasks) || WasSkipped(n, tasks) ==> OfNode(tasks, n.id) != []
  {
    var latest := Latest(tasks, n.id);
    forall t ensures t in latest <==> IsLatest(tasks, n.id, t) { LatestExactly(tasks, n.id, t); }
    forall k | 0 <= k < |latest| ensures IsLatest(tasks, n.id, latest[k]) { assert latest[k] in latest; }
    if |latest| > 0 { assert IsLatest(tasks, n.id, latest[0]); }
  }

  lemma JoinByStatus(plan: ExecutionPlan, join: NodeSpec, tasks: seq<FlowTask>)
    ensures JoinOpen(plan, join, tasks) <==> JoinRule(plan, join, tasks)
  {
    forall n ensures Advanced(n, tasks) <==> MeetsRule(n, tasks)
      ensures Resolved(join.kind, n, tasks) <==> MeetsRule(n, tasks) || (join.kind.Inclusive? && WasSkipped(n, tasks))
    {
      AdvancedByStatus(n, tasks);
    }
  }

  ghost predicate AllResolved(kind: NodeType, nodes: seq<NodeSpec>, tasks: seq<FlowTask>) {
    forall k {:trigger Resolved(kind, nodes[k], tasks)} | 0 <= k < |nodes| :: Resolved(kind, nodes[k], tasks)
  }

  ghost predicate SomeAdvanced(nodes: seq<NodeSpec>, tasks: seq<FlowTask>) {
    exists k {:trigger Advanced(nodes[k], tasks)} :: 0 <= k < |nodes| && Advanced(nodes[k], tasks)
  }

  /** Examines one preceding activity. */
  method CheckNode(kind: NodeType, n: NodeSpec, tasks: seq<FlowTask>) returns (ok: bool, passed: bool)
    requires kind.Parallel? || kind.Inclusive?
    ensures ok <==> Resolved(kind, n, tasks)
    ensures ok ==> (passed <==> Advanced(n, tasks))
  {
    if OfNode(tasks, n.id) == [] {
      return false, false;
    }
    var srcTasks := Latest(tasks, n.id);
    passed := SatisfiedToAdvance(n, srcTasks);
    ok := passed;
    if kind.Inclusive? {
      ok := passed || exists k :: 0 <= k < |srcTasks| && srcTasks[k].status.Skipped?;
    }
  }

  /** What the counters say after the activities have been examined, counting on from given values. */
  ghost predicate Checked(kind: NodeType, nodes: seq<NodeSpec>, tasks: seq<FlowTask>, checked0: nat, passed0: nat,
                          checked: nat, passed: nat) {
    && AllResolved(kind, nodes, tasks) && checked == checked0 + |nodes| && passed >= passed0
    && (passed > passed0 <==> SomeAdvanced(nodes, tasks))
  }

  lemma CheckedStep(kind: NodeType, nodes: seq<NodeSpec>, k: nat, tasks: seq<FlowTask>, checked0: nat, passed0: nat,
                    checked: nat, passed: nat, nodePassed: bool)
    requires k < |nodes| && Checked(kind, nodes[..k], tasks, checked0, passed0, checked, passed)
    requires Resolved(kind, nodes[k], tasks) && (nodePassed <==> Advanced(nodes[k], tasks))
    ensures Checked(kind, nodes[..k + 1], tasks, checked0, passed0, checked + 1, if nodePassed then passed + 1 else passed)
  {
    ResolvedStep(kind, nodes, k, tasks);
    assert nodes[..k + 1] == nodes[..k] + [nodes[k]];
    SomeAdvancedStep(nodes[..k], nodes[k], tasks);
  }

  lemma UnresolvedNode(kind: NodeType, nodes: seq<NodeSpec>, k: nat, tasks: seq<FlowTask>)
    requires k < |nodes| && !Resolved(kind, nodes[k], tasks)
    ensures !AllResolved(kind, nodes, tasks)
  {
  }

  /** Examines the activities behind one incoming edge. */
  method CheckNodes(kind: NodeType, nodes: seq<NodeSpec>, tasks: seq<FlowTask>, checked0: nat, passed0: nat)
    returns (ok: bool, checked: nat, passed: nat)
    requires kind.Parallel? || kind.Inclusive?
    ensures ok <==> AllResolved(kind, nodes, tasks)
    ensures ok ==> Checked(kind, nodes, tasks, checked0, passed0, checked, passed)
  {
    checked, passed := checked0, passed0;
    for k := 0 to |nodes|
      invariant Checked(kind, nodes[..k], tasks, checked0, passed0, checked, passed)
    {
      var nodeOk, nodePassed := CheckNode(kind, nodes[k], tasks);
      if !nodeOk {
        UnresolvedNode(kind, nodes, k, tasks);
        return false, checked + 1, passed;
      }
      CheckedStep(kind, nodes, k, tasks, checked0, passed0, checked, passed, nodePassed);
      checked := checked + 1;
      if nodePassed {
        passed := passed + 1;
      }
    }
    assert nodes[..|nodes|] == nodes;
    ok := true;
  }

  lemma ResolvedStep(kind: NodeType, nodes: seq<NodeSpec>, k: nat, tasks: seq<FlowTask>)
    requires k < |nodes| && AllResolved(kind, nodes[..k], tasks)
    ensures if Resolved(kind, nodes[k], tasks) then AllResolved(kind, nodes[..k + 1], tasks)
      else !AllResolved(kind, nodes, tasks)
  {
    if Resolved(kind, nodes[k], tasks) {
      var upTo := nodes[..k + 1];
      forall j | 0 <= j < |upTo| ensures Resolved(kind, upTo[j], tasks) {
        if j < k { assert Resolved(kind, nodes[..k][j], tasks); }
      }
    }
  }

  lemma SomeAdvancedStep(nodes: seq<NodeSpec>, n: NodeSpec, tasks: seq<FlowTask>)
    ensures SomeAdvanced(nodes + [n], tasks) <==> SomeAdvanced(nodes, tasks) || Advanced(n, tasks)
  {
    var more := nodes + [n];
    assert more[|nodes|] == n;
    if SomeAdvanced(nodes, tasks) {
      var k :| 0 <= k < |nodes| && Advanced(nodes[k], tasks);
      assert Advanced(more[k], tasks);
    }
  }

  /** Tracing back beyond the edge ends. */
  ghost predicate EdgeEnds(plan: ExecutionPlan, e: EdgeSpec) {
    IsGatewayIn(plan, e.source) ==> Ends(Back(plan), e.source)
  }

  ghost predicate EdgesEnd(plan: ExecutionPlan, edges: seq<EdgeSpec>) {
    forall k {:trigger edges[k]} | 0 <= k < |edges| :: EdgeEnds(plan, edges[k])
  }

  /** Where the node synchronizes branches, no cycle of gateways lies behind it. */
  ghost predicate JoinEnds(plan: ExecutionPlan, join: NodeSpec) {
    Synchronizes(plan, join) ==> Ends(Back(plan), join.id)
  }

  lemma SynchronizedEdgesEnd(plan: ExecutionPlan, v: string)
    requires Ends(Back(plan), v)
    ensures EdgesEnd(plan, In(plan, v))
  {
    var edges := In(plan, v);
    forall k | 0 <= k < |edges| ensures EdgeEnds(plan, edges[k]) {
      if IsGatewayIn(plan, edges[k].source) {
        assert edges[k].source in Succ(Back(plan), v);
        AheadShrinks(Back(plan), v, edges[k].source);
      }
    }
  }

  /** The activities to check behind one incoming edge. */
  function CheckList(plan: ExecutionPlan, e: EdgeSpec): seq<NodeSpec>
    requires EdgeEnds(plan, e)
  {
    if e.source !in plan.nodes then []
    else if plan.nodes[e.source].IsActivity() then [plan.nodes[e.source]]
    else if plan.nodes[e.source].IsGateway() then PrecedingNodes(plan, e.source)
    else []
  }

  lemma CheckListExactly(plan: ExecutionPlan, e: EdgeSpec)
    requires Indexed(plan) && EdgeEnds(plan, e)
    ensures forall n :: n in CheckList(plan, e) <==> ViaEdge(plan, e, n)
  {
    forall n ensures n in CheckList(plan, e) <==> ViaEdge(plan, e, n) {
      if IsGatewayIn(plan, e.source) { PrecedingExactly(plan, e.source, n); }
    }
  }

  ghost predicate EdgeResolved(plan: ExecutionPlan, kind: NodeType, e: EdgeSpec, tasks: seq<FlowTask>) {
    forall n {:trigger ViaEdge(plan, e, n)} | ViaEdge(plan, e, n) :: Resolved(kind, n, tasks)
  }

  ghost predicate EdgeAdvanced(plan: ExecutionPlan, e: EdgeSpec, tasks: seq<FlowTask>) {
    exists n :: ViaEdge(plan, e, n) && Advanced(n, tasks)
  }

  ghost predicate EdgeHasActivity(plan: ExecutionPlan, e: EdgeSpec) { exists n :: ViaEdge(plan, e, n) }

  lemma ListIsEdge(plan: ExecutionPlan, kind: NodeType, e: EdgeSpec, tasks: seq<FlowTask>)
    requires Indexed(plan) && EdgeEnds(plan, e)
    ensures AllResolved(kind, CheckList(plan, e), tasks) <==> EdgeResolved(plan, kind, e, tasks)
    ensures SomeAdvanced(CheckList(plan, e), tasks) <==> EdgeAdvanced(plan, e, tasks)
    ensures |CheckList(plan, e)| > 0 <==> EdgeHasActivity(plan, e)
  {
    CheckListExactly(plan, e);
    var list := CheckList(plan, e);
    assert forall k | 0 <= k < |list| :: list[k] in list;
    if |list| > 0 { assert ViaEdge(plan, e, list[0]); }
  }

  ghost predicate SomeEdge(plan: ExecutionPlan, edges: seq<EdgeSpec>) {
    exists k :: 0 <= k < |edges| && EdgeHasActivity(plan, edges[k])
  }

  ghost predicate SomeEdgeAdvanced(plan: ExecutionPlan, edges: seq<EdgeSpec>, tasks: seq<FlowTask>) {
    exists k :: 0 <= k < |edges| && EdgeAdvanced(plan, edges[k], tasks)
  }

  lemma EdgeStep(plan: ExecutionPlan, edges: seq<EdgeSpec>, k: nat, tasks: seq<FlowTask>)
    requires k < |edges|
    ensures SomeEdge(plan, edges[..k + 1]) <==> SomeEdge(plan, edges[..k]) || EdgeHasActivity(plan, edges[k])
    ensures SomeEdgeAdvanced(plan, edges[..k + 1], tasks) <==>
      SomeEdgeAdvanced(plan, edges[..k], tasks) || EdgeAdvanced(plan, edges[k], tasks)
  {
    assert edges[..k + 1] == edges[..k] + [edges[k]];
    EdgeAppended(plan, edges[..k], edges[k], tasks);
  }

  lemma EdgeAppended(plan: ExecutionPlan, edges: seq<EdgeSpec>, e: EdgeSpec, tasks: seq<FlowTask>)
    ensures SomeEdge(plan, edges + [e]) <==> SomeEdge(plan, edges) || EdgeHasActivity(plan, e)
    ensures SomeEdgeAdvanced(plan, edges + [e], tasks) <==>
      SomeEdgeAdvanced(plan, edges, tasks) || EdgeAdvanced(plan, e, tasks)
  {
    var more := edges + [e];
    assert more[|edges|] == e;
    if SomeEdge(plan, edges) {
      var k :| 0 <= k < |edges| && EdgeHasActivity(plan, edges[k]);
      assert EdgeHasActivity(plan, more[k]);
    }
    if SomeEdgeAdvanced(plan, edges, tasks) {
      var k :| 0 <= k < |edges| && EdgeAdvanced(plan, edges[k], tasks);
      assert EdgeAdvanced(plan, more[k], tasks);
    }
  }

  ghost predicate EdgesResolved(plan: ExecutionPlan, kind: NodeType, edges: seq<EdgeSpec>, tasks: seq<FlowTask>) {
    forall k {:trigger EdgeResolved(plan, kind, edges[k], tasks)} | 0 <= k < |edges| ::
      EdgeResolved(plan, kind, edges[k], tasks)
  }

  lemma EdgesResolvedStep(plan: ExecutionPlan, kind: NodeType, edges: seq<EdgeSpec>, k: nat, tasks: seq<FlowTask>)
    requires k < |edges| && EdgesResolved(plan, kind, edges[..k], tasks)
    ensures if EdgeResolved(plan, kind, edges[k], tasks) then EdgesResolved(plan, kind, edges[..k + 1], tasks)
      else !EdgesResolved(plan, kind, edges, tasks)
  {
    if EdgeResolved(plan, kind, edges[k], tasks) {
      var upTo := edges[..k + 1];
      forall j | 0 <= j < |upTo| ensures EdgeResolved(plan, kind, upTo[j], tasks) {
        if j < k { assert EdgeResolved(plan, kind, edges[..k][j], tasks); }
      }
    }
  }

  lemma ActivityBehind(plan: ExecutionPlan, v: string)
    ensures SomeEdge(plan, In(plan, v)) <==> exists n :: Precedes(plan, v, n)
  {
    var edges := In(plan, v);
    if SomeEdge(plan, edges) {
      var k :| 0 <= k < |edges| && EdgeHasActivity(plan, edges[k]);
      var n :| ViaEdge(plan, edges[k], n);
      PrecedesByEdge(plan, v, n);
    }
    if exists n :: Precedes(plan, v, n) {
      var n :| Precedes(plan, v, n);
      PrecedesByEdge(plan, v, n);
      var k :| 0 <= k < |edges| && ViaEdge(plan, edges[k], n);
      assert EdgeHasActivity(plan, edges[k]);
    }
  }

  lemma AdvancedBehind(plan: ExecutionPlan, v: string, tasks: seq<FlowTask>)
    ensures SomeEdgeAdvanced(plan, In(plan, v), tasks) <==> exists n :: Precedes(plan, v, n) && Advanced(n, tasks)
  {
    var edges := In(plan, v);
    if SomeEdgeAdvanced(plan, edges, tasks) {
      var k :| 0 <= k < |edges| && EdgeAdvanced(plan, edges[k], tasks);
      var n :| ViaEdge(plan, edges[k], n) && Advanced(n, tasks);
      PrecedesByEdge(plan, v, n);
    }
    if exists n :: Precedes(plan, v, n) && Advanced(n, tasks) {
      var n :| Precedes(plan, v, n) && Advanced(n, tasks);
      PrecedesByEdge(plan, v, n);
      var k :| 0 <= k < |edges| && ViaEdge(plan, edges[k], n);
      assert EdgeAdvanced(plan, edges[k], tasks);
    }
  }

  lemma ResolvedBehind(plan: ExecutionPlan, kind: NodeType, v: string, tasks: seq<FlowTask>)
    ensures EdgesResolved(plan, kind, In(plan, v), tasks) <==>
      forall n {:trigger Precedes(plan, v, n)} | Precedes(plan, v, n) :: Resolved(kind, n, tasks)
  {
    var edges := In(plan, v);
    if EdgesResolved(plan, kind, edges, tasks) {
      forall n | Precedes(plan, v, n) ensures Resolved(kind, n, tasks) {
        PrecedesByEdge(plan, v, n);
        var k :| 0 <= k < |edges| && ViaEdge(plan, edges[k], n);
        assert EdgeResolved(plan, kind, edges[k], tasks);
      }
    } else {
      var k :| 0 <= k < |edges| && !EdgeResolved(plan, kind, edges[k], tasks);
      var n :| ViaEdge(plan, edges[k], n) && !Resolved(kind, n, tasks);
      PrecedesByEdge(plan, v, n);
    }
  }

  lemma JoinByEdges(plan: ExecutionPlan, join: NodeSpec, tasks: seq<FlowTask>)
    requires Synchronizes(plan, join)
    ensures JoinOpen(plan, join, tasks) <==>
      EdgesResolved(plan, join.kind, In(plan, join.id), tasks)
      && (join.kind.Inclusive? && SomeEdge(plan, In(plan, join.id)) ==> SomeEdgeAdvanced(plan, In(plan, join.id), tasks))
  {
    ResolvedBehind(plan, join.kind, join.id, tasks);
    ActivityBehind(plan, join.id);
    AdvancedBehind(plan, join.id, tasks);
  }

  /** Examines the activities behind one incoming edge, counting on. */
  method CheckEdge(plan: ExecutionPlan, kind: NodeType, e: EdgeSpec, tasks: seq<FlowTask>,
                   checked0: nat, passed0: nat)
    returns (ok: bool, checked: nat, passed: nat)
    requires Indexed(plan) && EdgeEnds(plan, e) && (kind.Parallel? || kind.Inclusive?)
    ensures ok <==> EdgeResolved(plan, kind, e, tasks)
    ensures ok ==> (checked > 0 <==> checked0 > 0 || EdgeHasActivity(plan, e))
    ensures ok ==> (passed > 0 <==> passed0 > 0 || EdgeAdvanced(plan, e, tasks))
  {
    ListIsEdge(plan, kind, e, tasks);
    ok, checked, passed := CheckNodes(kind, CheckList(plan, e), tasks, checked0, passed0);
  }

  /** What the counters say after the edges have been examined. */
  ghost predicate Examined(plan: ExecutionPlan, kind: NodeType, edges: seq<EdgeSpec>, tasks: seq<FlowTask>,
                           checked: nat, passed: nat) {
    && EdgesResolved(plan, kind, edges, tasks)
    && (checked > 0 <==> SomeEdge(plan, edges)) && (passed > 0 <==> SomeEdgeAdvanced(plan, edges, tasks))
  }

  lemma ExaminedStep(plan: ExecutionPlan, kind: NodeType, edges: seq<EdgeSpec>, k: nat, tasks: seq<FlowTask>,
                     before: (nat, nat), after: (nat, nat))
    requires k < |edges| && Examined(plan, kind, edges[..k], tasks, before.0, before.1)
    requires EdgeResolved(plan, kind, edges[k], tasks)
    requires after.0 > 0 <==> before.0 > 0 || EdgeHasActivity(plan, edges[k])
    requires after.1 > 0 <==> before.1 > 0 || EdgeAdvanced(plan, edges[k], tasks)
    ensures Examined(plan, kind, edges[..k + 1], tasks, after.0, after.1)
  {
    EdgesResolvedStep(plan, kind, edges, k, tasks);
    EdgeStep(plan, edges, k, tasks);
  }

  lemma UnresolvedEdge(plan: ExecutionPlan, kind: NodeType, edges: seq<EdgeSpec>, k: nat, tasks: seq<FlowTask>)
    requires k < |edges| && !EdgeResolved(plan, kind, edges[k], tasks)
    ensures !EdgesResolved(plan, kind, edges, tasks)
  {
  }

  /** Examines the incoming edges in order, stopping at the first activity that holds the join back. */
  method CheckEdges(plan: ExecutionPlan, kind: NodeType, edges: seq<EdgeSpec>, tasks: seq<FlowTask>)
    returns (ok: bool, checked: nat, passed: nat)
    requires Indexed(plan) && EdgesEnd(plan, edges) && (kind.Parallel? || kind.Inclusive?)
    ensures ok <==> EdgesResolved(plan, kind, edges, tasks)
    ensures ok ==> Examined(plan, kind, edges, tasks, checked, passed)
  {
    checked, passed := 0, 0;
    for k := 0 to |edges|
      invariant Examined(plan, kind, edges[..k], tasks, checked, passed)
    {
      ghost var before := (checked, passed);
      ok, checked, passed := CheckEdge(plan, kind, edges[k], tasks, checked, passed);
      if !ok {
        UnresolvedEdge(plan, kind, edges, k, tasks);
        return;
      }
      ExaminedStep(plan, kind, edges, k, tasks, before, (checked, passed));
    }
    assert edges[..|edges|] == edges;
    ok := true;
  }

  /** Decides whether a join lets the flow through. */
  method IsJoinSatisfied(plan: ExecutionPlan, join: NodeSpec, tasks: seq<FlowTask>)
    returns (r: bool)
    requires Indexed(plan) && JoinEnds(plan, join)
    ensures r <==> JoinOpen(plan, join, tasks)
    ensures r <==> JoinRule(plan, join, tasks)
  {
    JoinByStatus(plan, join, tasks);
    if !join.kind.Parallel? && !join.kind.Inclusive? {
      return true;
    }
    var edges := In(plan, join.id);
    if |edges| <= 1 {
      return true;
    }
    JoinByEdges(plan, join, tasks);
    SynchronizedEdgesEnd(plan, join.id);
    var ok, checked, passed := CheckEdges(plan, join.kind, edges, tasks);
    r := ok && !(join.kind.Inclusive? && checked > 0 && passed == 0);
  }
}
