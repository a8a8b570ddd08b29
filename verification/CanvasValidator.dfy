/** The canvas validators, run in their fixed order, and what an accepted canvas is like. */
module CanvasValidator {
  import opened Prelude
  import opened Graphs
  import opened CanvasModel
  import opened CanvasCycles
  import opened CanvasScan
  import opened CanvasRules

  datatype Problem =
    | UnsupportedType | DanglingEdge | SelfLoop | BadBoundary | Cyclic(path: seq<string>) | Disconnected
    | ConditionDeadlock | UnpairedFork | SelectiveTarget | SelectiveTooNarrow
    | MissingExpression | RepeatedExpression

  // ---------------------------------------------------------------- what each validator demands

  ghost predicate Supported(ctx: Context) {
    forall id | id in ctx.nodes :: !ctx.nodes[id].kind.Unsupported?
  }

  ghost predicate NoSelfLoops(ctx: Context) {
    forall id | id in ctx.nodes :: id !in Targets(ctx, id)
  }

  ghost predicate IsStart(ctx: Context, id: string) { id in ctx.nodes && ctx.nodes[id].kind.StartNode? }

  ghost predicate IsEnd(ctx: Context, id: string) { id in ctx.nodes && ctx.nodes[id].kind.EndNode? }

  /** One start node without incoming edges; at least one end node, none with outgoing edges. */
  ghost predicate Bounded(ctx: Context) {
    && (exists s :: IsStart(ctx, s))
    && (forall s, t | IsStart(ctx, s) && IsStart(ctx, t) :: s == t)
    && (forall s | IsStart(ctx, s) :: Prevs(ctx, s) == [])
    && (exists e :: IsEnd(ctx, e))
    && (forall e | IsEnd(ctx, e) :: OutEdges(ctx, e) == [])
  }

  ghost predicate ReachesAnEnd(ctx: Context, v: string) {
    exists e :: IsEnd(ctx, e) && Reaches(ForwardGraph(ctx), v, e)
  }

  /** Every node lies between the start node and some end node. */
  ghost predicate Connected(ctx: Context) {
    forall v {:trigger FromStart(ctx, v)} {:trigger ReachesAnEnd(ctx, v)} | v in ctx.nodes ::
      FromStart(ctx, v) && ReachesAnEnd(ctx, v)
  }

  /** All branches of `id` run into the same first merge gateway `m`. */
  ghost predicate SharedMerge(ctx: Context, id: string, m: string, atExclusiveJoin: bool) {
    (KindOf(ctx, m) == Parallel || KindOf(ctx, m) == Inclusion)
    && forall k | 0 <= k < |Targets(ctx, id)| :: Reaches(Pruned(ctx, atExclusiveJoin), Targets(ctx, id)[k], m)
  }

  ghost predicate DeadlockFree(ctx: Context, id: string) {
    KindOf(ctx, id).Condition? && |OutEdges(ctx, id)| > 1 ==> !exists m :: SharedMerge(ctx, id, m, true)
  }

  ghost predicate BranchEnds(ctx: Context, b: string) {
    exists e :: KindOf(ctx, e).EndNode? && Reaches(Pruned(ctx, false), b, e)
  }

  ghost predicate ForkPaired(ctx: Context, id: string) {
    KindOf(ctx, id).Parallel? && |OutEdges(ctx, id)| > 1 ==>
      !AnyEnds(ctx, Targets(ctx, id)) && exists m :: SharedMerge(ctx, id, m, false)
  }

  ghost predicate SelectiveSplits(ctx: Context, id: string) {
    KindOf(ctx, id).Selective? ==> forall t | t in Targets(ctx, id) :: KindOf(ctx, t).Condition?
  }

  ghost predicate SelectiveWide(ctx: Context, id: string) {
    KindOf(ctx, id).Selective? ==> |OutEdges(ctx, id)| > 1
  }

  ghost predicate Accepted(ctx: Context) {
    && Supported(ctx) && Endpoints(ctx) && NoSelfLoops(ctx) && Bounded(ctx)
    && Acyclic(ForwardGraph(ctx)) && Connected(ctx) && GatewaysSound(ctx)
    && AllRulesGiven(ctx) && AllRulesDiffer(ctx)
  }

  ghost predicate AllDeadlockFree(ctx: Context) {
    forall id {:trigger DeadlockFree(ctx, id)} | id in ctx.nodes :: DeadlockFree(ctx, id)
  }

  lemma UnlistedDeadlockFree(ctx: Context, keys: seq<string>, k: nat)
    requires Listed(ctx, keys) && k < |keys| && !DeadlockFree(ctx, keys[k])
    ensures !AllDeadlockFree(ctx)
  {
    assert keys[k] in keys;
  }

  lemma ListedDeadlockFree(ctx: Context, keys: seq<string>)
    requires Listed(ctx, keys) && forall j {:trigger DeadlockFree(ctx, keys[j])} | 0 <= j < |keys| :: DeadlockFree(ctx, keys[j])
    ensures AllDeadlockFree(ctx)
  {
    forall id | id in ctx.nodes ensures DeadlockFree(ctx, id) {
      var j :| 0 <= j < |keys| && keys[j] == id;
      assert DeadlockFree(ctx, keys[j]);
    }
  }

  ghost predicate AllForkPaired(ctx: Context) {
    forall id {:trigger ForkPaired(ctx, id)} | id in ctx.nodes :: ForkPaired(ctx, id)
  }

  lemma UnlistedForkPaired(ctx: Context, keys: seq<string>, k: nat)
    requires Listed(ctx, keys) && k < |keys| && !ForkPaired(ctx, keys[k])
    ensures !AllForkPaired(ctx)
  {
    assert keys[k] in keys;
  }

  lemma ListedForkPaired(ctx: Context, keys: seq<string>)
    requires Listed(ctx, keys) && forall j {:trigger ForkPaired(ctx, keys[j])} | 0 <= j < |keys| :: ForkPaired(ctx, keys[j])
    ensures AllForkPaired(ctx)
  {
    forall id | id in ctx.nodes ensures ForkPaired(ctx, id) {
      var j :| 0 <= j < |keys| && keys[j] == id;
      assert ForkPaired(ctx, keys[j]);
    }
  }

  ghost predicate GatewaysSound(ctx: Context) {
    && AllDeadlockFree(ctx)
    && AllForkPaired(ctx)
    && (forall id {:trigger SelectiveSplits(ctx, id)} | id in ctx.nodes :: SelectiveSplits(ctx, id))
    && (forall id {:trigger SelectiveWide(ctx, id)} | id in ctx.nodes :: SelectiveWide(ctx, id))
  }

  // ---------------------------------------------------------------- the validators

  ghost predicate Listed(ctx: Context, keys: seq<string>) {
    Distinct(keys) && forall v :: v in keys <==> v in ctx.nodes
  }

  lemma ListedKeys(ctx: Context, keys: seq<string>)
    requires Listed(ctx, keys)
    ensures Elements(keys) == ctx.nodes.Keys
  {
  }

  predicate OfKind(ctx: Context, v: string, starts: bool) {
    v in ctx.nodes && if starts then ctx.nodes[v].kind.StartNode? else ctx.nodes[v].kind.EndNode?
  }

  /** The start nodes, or the end nodes, in key order. */
  method Filter(ctx: Context, keys: seq<string>, starts: bool) returns (found: seq<string>)
    requires Listed(ctx, keys)
    ensures Distinct(found) && forall v :: v in found <==> OfKind(ctx, v, starts)
  {
    found := [];
    for k := 0 to |keys|
      invariant Distinct(found) && forall v :: v in found <==> v in keys[..k] && OfKind(ctx, v, starts)
    {
      assert keys[..k + 1] == keys[..k] + [keys[k]] && keys[k] !in keys[..k];
      if OfKind(ctx, keys[k], starts) {
        found := found + [keys[k]];
      }
    }
    assert keys[..|keys|] == keys;
  }

  method ValidateStartEnd(ctx: Context, keys: seq<string>) returns (ok: bool)
    requires Listed(ctx, keys)
    ensures ok <==> Bounded(ctx)
  {
    var starts := Filter(ctx, keys, true);
    var ends := Filter(ctx, keys, false);
    assert forall v :: IsStart(ctx, v) <==> v in starts;
    assert forall v :: IsEnd(ctx, v) <==> v in ends;
    if |starts| == 0 {
      return false;
    }
    assert IsStart(ctx, starts[0]);
    if |starts| > 1 {
      assert IsStart(ctx, starts[1]);
      return false;
    }
    if Prevs(ctx, starts[0]) != [] || |ends| == 0 {
      return false;
    }
    assert IsEnd(ctx, ends[0]);
    ok := forall e | e in ends :: OutEdges(ctx, e) == [];
  }

  ghost predicate FromStart(ctx: Context, v: string) {
    forall s | IsStart(ctx, s) :: Reaches(ForwardGraph(ctx), s, v)
  }

  lemma SomeEnd(ctx: Context, ends: seq<string>, v: string)
    requires forall e :: e in ends <==> OfKind(ctx, e, false)
    ensures ReachesSome(ForwardGraph(ctx), v, ends) <==> ReachesAnEnd(ctx, v)
  {
    if ReachesAnEnd(ctx, v) {
      var e :| IsEnd(ctx, e) && Reaches(ForwardGraph(ctx), v, e);
      assert OfKind(ctx, e, false) && e in ends;
    }
    if ReachesSome(ForwardGraph(ctx), v, ends) {
      var e :| e in ends && Reaches(ForwardGraph(ctx), v, e);
      assert OfKind(ctx, e, false) && IsEnd(ctx, e);
    }
  }

  /** The nodes from which the backward pass found an end. */
  method BackwardPass(ctx: Context, keys: seq<string>) returns (toEnd: set<string>)
    requires WellBuilt(ctx) && Endpoints(ctx) && Listed(ctx, keys)
    ensures forall v :: v in toEnd <==> ReachesAnEnd(ctx, v)
  {
    var ends := Filter(ctx, keys, false);
    toEnd := ReachingEnd(ctx, ends);
    forall v ensures v in toEnd <==> ReachesAnEnd(ctx, v) {
      SomeEnd(ctx, ends, v);
    }
  }

  method ForwardPass(ctx: Context, keys: seq<string>) returns (fromStart: set<string>)
    requires Endpoints(ctx) && Bounded(ctx) && Listed(ctx, keys)
    ensures forall v :: v in fromStart <==> FromStart(ctx, v)
  {
    var starts := Filter(ctx, keys, true);
    ghost var s :| IsStart(ctx, s);
    assert OfKind(ctx, s, true) && |starts| > 0;
    assert OfKind(ctx, starts[0], true) && IsStart(ctx, starts[0]);
    fromStart := ReachableFromStart(ctx, starts[0]);
  }

  method ValidateReachability(ctx: Context, keys: seq<string>) returns (ok: bool)
    requires WellBuilt(ctx) && Endpoints(ctx) && Bounded(ctx) && Listed(ctx, keys)
    ensures ok <==> Connected(ctx)
  {
    var fromStart := ForwardPass(ctx, keys);
    var lost := exists v | v in ctx.nodes :: v !in fromStart;
    if lost {
      return false;
    }
    var toEnd := BackwardPass(ctx, keys);
    ok := forall v | v in ctx.nodes :: v in toEnd;
  }

  function Keep(list: seq<string>, among: seq<string>): (r: seq<string>)
    ensures forall x :: x in r <==> x in list && x in among
  {
    if list == [] then [] else (if list[0] in among then [list[0]] else []) + Keep(list[1..], among)
  }

  /** The elements common to all the lists. */
  method IntersectMany(lists: seq<seq<string>>) returns (common: seq<string>)
    ensures lists == [] ==> common == []
    ensures lists != [] ==> forall x :: x in common <==> forall k | 0 <= k < |lists| :: x in lists[k]
  {
    if lists == [] {
      return [];
    }
    common := lists[0];
    for i := 1 to |lists|
      invariant forall x :: x in common <==> forall k | 0 <= k < i :: x in lists[k]
    {
      common := Keep(lists[i], common);
    }
  }

  ghost predicate MergesOf(ctx: Context, b: string, atExclusiveJoin: bool, gateways: seq<string>) {
    forall m :: m in gateways <==> KindOf(ctx, m).Merge() && Reaches(Pruned(ctx, atExclusiveJoin), b, m)
  }

  ghost predicate AnyEnds(ctx: Context, branches: seq<string>) {
    exists k :: 0 <= k < |branches| && BranchEnds(ctx, branches[k])
  }

  lemma AnyEndsAppended(ctx: Context, branches: seq<string>, b: string)
    ensures AnyEnds(ctx, branches + [b]) <==> AnyEnds(ctx, branches) || BranchEnds(ctx, b)
  {
    var more := branches + [b];
    assert more[|branches|] == b;
    if AnyEnds(ctx, branches) {
      var k :| 0 <= k < |branches| && BranchEnds(ctx, branches[k]);
      assert BranchEnds(ctx, more[k]);
    }
  }

  method ScanOne(ctx: Context, b: string, atExclusiveJoin: bool) returns (reachedEnd: bool, gateways: seq<string>)
    requires Endpoints(ctx)
    ensures MergesOf(ctx, b, atExclusiveJoin, gateways)
    ensures !atExclusiveJoin ==> (reachedEnd <==> BranchEnds(ctx, b))
  {
    var scan := ScanBranchDownstream(ctx, b, atExclusiveJoin);
    reachedEnd, gateways := scan.reachedEnd, scan.gateways;
  }

  /** Scans every branch of a split. */
  method ScanBranches(ctx: Context, branches: seq<string>, atExclusiveJoin: bool)
    returns (reachedEnd: bool, gateways: seq<seq<string>>)
    requires Endpoints(ctx)
    ensures |gateways| == |branches|
    ensures forall k | 0 <= k < |gateways| :: MergesOf(ctx, branches[k], atExclusiveJoin, gateways[k])
    ensures !atExclusiveJoin ==> (reachedEnd <==> AnyEnds(ctx, branches))
  {
    reachedEnd, gateways := false, [];
    for k := 0 to |branches|
      invariant |gateways| == k
      invariant forall j | 0 <= j < k :: MergesOf(ctx, branches[j], atExclusiveJoin, gateways[j])
      invariant !atExclusiveJoin ==> (reachedEnd <==> AnyEnds(ctx, branches[..k]))
    {
      var ends, found := ScanOne(ctx, branches[k], atExclusiveJoin);
      AnyEndsAppended(ctx, branches[..k], branches[k]);
      assert branches[..k + 1] == branches[..k] + [branches[k]];
      reachedEnd := reachedEnd || ends;
      gateways := gateways + [found];
    }
    assert branches[..|branches|] == branches;
  }

  lemma CommonIsShared(ctx: Context, id: string, flag: bool, gateways: seq<seq<string>>, common: seq<string>, m: string)
    requires |gateways| == |Targets(ctx, id)| > 0
    requires forall k | 0 <= k < |gateways| :: MergesOf(ctx, Targets(ctx, id)[k], flag, gateways[k])
    requires forall x :: x in common <==> forall k | 0 <= k < |gateways| :: x in gateways[k]
    ensures m in common <==> SharedMerge(ctx, id, m, flag)
  {
    forall k | 0 <= k < |gateways|
      ensures m in gateways[k] <==> KindOf(ctx, m).Merge() && Reaches(Pruned(ctx, flag), Targets(ctx, id)[k], m)
    {
      assert MergesOf(ctx, Targets(ctx, id)[k], flag, gateways[k]);
    }
    if m in common { assert m in gateways[0]; }
  }

  method CommonMerge(ctx: Context, id: string, atExclusiveJoin: bool) returns (reachedEnd: bool, shared: bool)
    requires Endpoints(ctx) && |Targets(ctx, id)| > 0
    ensures shared <==> exists m :: SharedMerge(ctx, id, m, atExclusiveJoin)
    ensures !atExclusiveJoin ==> (reachedEnd <==> AnyEnds(ctx, Targets(ctx, id)))
  {
    var gateways;
    reachedEnd, gateways := ScanBranches(ctx, Targets(ctx, id), atExclusiveJoin);
    var common := IntersectMany(gateways);
    shared := |common| > 0;
    forall m ensures m in common <==> SharedMerge(ctx, id, m, atExclusiveJoin) {
      CommonIsShared(ctx, id, atExclusiveJoin, gateways, common, m);
    }
    if shared { assert common[0] in common; }
  }

  method CheckCondition(ctx: Context, id: string) returns (ok: bool)
    requires Endpoints(ctx)
    ensures ok <==> DeadlockFree(ctx, id)
  {
    ok := true;
    if KindOf(ctx, id).Condition? && |OutEdges(ctx, id)| > 1 {
      var _, shared := CommonMerge(ctx, id, true);
      ok := !shared;
    }
  }

  method CheckFork(ctx: Context, id: string) returns (ok: bool)
    requires Endpoints(ctx)
    ensures ok <==> ForkPaired(ctx, id)
  {
    ok := true;
    if KindOf(ctx, id).Parallel? && |OutEdges(ctx, id)| > 1 {
      var reachedEnd, shared := CommonMerge(ctx, id, false);
      ok := !reachedEnd && shared;
    }
  }

  method ValidateConditionDeadlock(ctx: Context, keys: seq<string>) returns (ok: bool)
    requires Endpoints(ctx) && Listed(ctx, keys)
    ensures ok <==> AllDeadlockFree(ctx)
  {
    for k := 0 to |keys|
      invariant forall j {:trigger DeadlockFree(ctx, keys[j])} | 0 <= j < k :: DeadlockFree(ctx, keys[j])
    {
      ok := CheckCondition(ctx, keys[k]);
      if !ok {
        UnlistedDeadlockFree(ctx, keys, k);
        return;
      }
    }
    ListedDeadlockFree(ctx, keys);
    return true;
  }

  method ValidateForkJoin(ctx: Context, keys: seq<string>) returns (ok: bool)
    requires Endpoints(ctx) && Listed(ctx, keys)
    ensures ok <==> AllForkPaired(ctx)
  {
    for k := 0 to |keys|
      invariant forall j {:trigger ForkPaired(ctx, keys[j])} | 0 <= j < k :: ForkPaired(ctx, keys[j])
    {
      ok := CheckFork(ctx, keys[k]);
      if !ok {
        UnlistedForkPaired(ctx, keys, k);
        return;
      }
    }
    ListedForkPaired(ctx, keys);
    return true;
  }

  /** The first three validators: node kinds, edge endpoints, self-loops. */
  method ValidateElements(ctx: Context) returns (problem: Option<Problem>)
    ensures problem.None? <==> Supported(ctx) && Endpoints(ctx) && NoSelfLoops(ctx)
    ensures problem.Some? ==> !problem.value.Cyclic?
  {
    if exists id | id in ctx.nodes :: ctx.nodes[id].kind.Unsupported? {
      return Some(UnsupportedType);
    }
    if exists id | id in ctx.edges :: exists k | 0 <= k < |ctx.edges[id]| :: Dangles(ctx, id, ctx.edges[id][k].target) {
      var id :| id in ctx.edges && exists k | 0 <= k < |ctx.edges[id]| :: Dangles(ctx, id, ctx.edges[id][k].target);
      var k :| 0 <= k < |ctx.edges[id]| && Dangles(ctx, id, ctx.edges[id][k].target);
      DanglingSeen(ctx, id, k);
      return Some(DanglingEdge);
    }
    EndpointsChecked(ctx);
    if exists id | id in ctx.nodes :: id in Targets(ctx, id) {
      return Some(SelfLoop);
    }
    return None;
  }

  predicate Dangles(ctx: Context, u: string, v: string) { u !in ctx.nodes || v !in ctx.nodes }

  lemma DanglingSeen(ctx: Context, id: string, k: nat)
    requires id in ctx.edges && k < |ctx.edges[id]| && Dangles(ctx, id, ctx.edges[id][k].target)
    ensures !Endpoints(ctx)
  {
    var v := Targets(ctx, id)[k];
    if Endpoints(ctx) { SourceIsNode(ctx, id, v); }
  }

  lemma EndpointsChecked(ctx: Context)
    requires forall id | id in ctx.edges :: forall k | 0 <= k < |ctx.edges[id]| :: !Dangles(ctx, id, ctx.edges[id][k].target)
    ensures Endpoints(ctx)
  {
    forall u, v | v in Targets(ctx, u) ensures u in ctx.nodes && v in ctx.nodes {
      var k :| 0 <= k < |Targets(ctx, u)| && Targets(ctx, u)[k] == v;
      assert !Dangles(ctx, u, ctx.edges[u][k].target);
    }
  }

  /** The two validators of selective gateways. */
  method ValidateSelective(ctx: Context) returns (problem: Option<Problem>)
    ensures problem.None? <==> (forall id {:trigger SelectiveSplits(ctx, id)} | id in ctx.nodes :: SelectiveSplits(ctx, id))
                               && (forall id {:trigger SelectiveWide(ctx, id)} | id in ctx.nodes :: SelectiveWide(ctx, id))
    ensures problem.Some? ==> !problem.value.Cyclic?
  {
    if exists id | id in ctx.nodes :: !SplitsOnConditions(ctx, id) {
      return Some(SelectiveTarget);
    }
    if exists id | id in ctx.nodes :: KindOf(ctx, id).Selective? && |OutEdges(ctx, id)| < 2 {
      var id :| id in ctx.nodes && KindOf(ctx, id).Selective? && |OutEdges(ctx, id)| < 2;
      assert !SelectiveWide(ctx, id);
      return Some(SelectiveTooNarrow);
    }
    return None;
  }

  predicate SplitsOnConditions(ctx: Context, id: string)
    ensures SplitsOnConditions(ctx, id) <==> SelectiveSplits(ctx, id)
  {
    KindOf(ctx, id).Selective? ==> forall t | t in Targets(ctx, id) :: KindOf(ctx, t).Condition?
  }

  /** Runs the validators in order and stops at the first that objects. */
  method ValidateAll(ctx: Context, keys: seq<string>) returns (problem: Option<Problem>)
    requires WellBuilt(ctx) && Listed(ctx, keys)
    ensures problem.None? <==> Accepted(ctx)
    ensures problem.Some? && problem.value.Cyclic? ==> IsCycle(ForwardGraph(ctx), problem.value.path)
  {
    problem := ValidateElements(ctx);
    if problem.Some? {
      return;
    }
    var bounded := ValidateStartEnd(ctx, keys);
    if !bounded {
      return Some(BadBoundary);
    }
    ListedKeys(ctx, keys);
    var cycle := ValidateAcyclic(ctx, keys);
    if cycle.Some? {
      return Some(Cyclic(cycle.value));
    }
    var connected := ValidateReachability(ctx, keys);
    if !connected {
      return Some(Disconnected);
    }
    problem := ValidateGateways(ctx, keys);
    if problem.None? {
      problem := ValidateRules(ctx, keys);
    }
  }

  method ValidateRules(ctx: Context, keys: seq<string>) returns (problem: Option<Problem>)
    requires Listed(ctx, keys)
    ensures problem.None? <==> AllRulesGiven(ctx) && AllRulesDiffer(ctx)
    ensures problem.Some? ==> !problem.value.Cyclic?
  {
    var given := ValidateConditionExpressions(ctx, keys);
    if !given {
      return Some(MissingExpression);
    }
    var differ := ValidateDuplicateExpressions(ctx, keys);
    if !differ {
      return Some(RepeatedExpression);
    }
    problem := None;
  }

  method ValidateGateways(ctx: Context, keys: seq<string>) returns (problem: Option<Problem>)
    requires Endpoints(ctx) && Listed(ctx, keys)
    ensures problem.None? <==> GatewaysSound(ctx)
    ensures problem.Some? ==> !problem.value.Cyclic?
  {
    var deadlockFree := ValidateConditionDeadlock(ctx, keys);
    if !deadlockFree {
      return Some(ConditionDeadlock);
    }
    var paired := ValidateForkJoin(ctx, keys);
    if !paired {
      return Some(UnpairedFork);
    }
    problem := ValidateSelective(ctx);
  }

  // ---------------------------------------------------------------- what acceptance guarantees

  /** `v` lies between the only start node, which nothing enters, and an end node. */
  ghost predicate BetweenEnds(ctx: Context, v: string, s: string, e: string) {
    && IsStart(ctx, s) && (forall t | IsStart(ctx, t) :: t == s) && Prevs(ctx, s) == []
    && IsEnd(ctx, e) && OutEdges(ctx, e) == []
    && Reaches(ForwardGraph(ctx), s, v) && Reaches(ForwardGraph(ctx), v, e)
  }

  lemma OnPath(ctx: Context, v: string)
    requires Bounded(ctx) && FromStart(ctx, v) && ReachesAnEnd(ctx, v)
    ensures exists s, e :: BetweenEnds(ctx, v, s, e)
  {
    var s :| IsStart(ctx, s);
    var e :| IsEnd(ctx, e) && Reaches(ForwardGraph(ctx), v, e);
    assert BetweenEnds(ctx, v, s, e);
  }

  lemma AcceptedShape(ctx: Context, v: string)
    requires Accepted(ctx) && v in ctx.nodes
    ensures Bounded(ctx) && FromStart(ctx, v) && ReachesAnEnd(ctx, v)
    ensures ForkPaired(ctx, v) && DeadlockFree(ctx, v) && SelectiveSplits(ctx, v) && SelectiveWide(ctx, v)
  {
  }

  /** In an accepted canvas every node lies on a path from the one start node to some end node. */
  lemma AcceptedNodesOnPath(ctx: Context, v: string)
    requires Accepted(ctx) && v in ctx.nodes
    ensures exists s, e :: BetweenEnds(ctx, v, s, e)
  {
    AcceptedShape(ctx, v);
    OnPath(ctx, v);
  }

  /** The words of two rules differ. */
  predicate ToldApart(a: Edge, b: Edge) { Words(Trim(a.expression)) != Words(Trim(b.expression)) }

  /** In an accepted canvas every branch of a condition with several, or behind a selective gateway, has a rule. No two
      rules of a condition have the same words, nor two of all the conditions behind one selective gateway. */
  lemma AcceptedChoicesToldApart(ctx: Context, id: string)
    requires WellBuilt(ctx) && Accepted(ctx) && id in ctx.nodes
    ensures ctx.nodes[id].kind == Condition ==>
      forall k, l | 0 <= k < l < |OutEdges(ctx, id)| :: ToldApart(OutEdges(ctx, id)[k], OutEdges(ctx, id)[l])
    ensures ctx.nodes[id].kind == Condition && (|OutEdges(ctx, id)| > 1 || exists s :: s in Prevs(ctx, id) && KindOf(ctx, s) == Selective)
      ==> forall k | 0 <= k < |OutEdges(ctx, id)| :: !Blank(OutEdges(ctx, id)[k].expression)
    ensures ctx.nodes[id].kind == Selective ==>
      forall i, k, j, l | IsBranch(ctx, id, i, k) && IsBranch(ctx, id, j, l) && (i < j || (i == j && k < l)) ::
        ToldApart(BranchEdge(ctx, OutEdges(ctx, id), i, k), BranchEdge(ctx, OutEdges(ctx, id), j, l))
  {
    if ctx.nodes[id].kind == Condition {
      forall k, l | 0 <= k < l < |OutEdges(ctx, id)| ensures ToldApart(OutEdges(ctx, id)[k], OutEdges(ctx, id)[l]) {
        ConditionRulesDiffer(ctx, id, k, l);
      }
      forall k | 0 <= k < |OutEdges(ctx, id)| && (|OutEdges(ctx, id)| > 1 || exists s :: s in Prevs(ctx, id) && KindOf(ctx, s) == Selective)
        ensures !Blank(OutEdges(ctx, id)[k].expression)
      {
        RulesAreWritten(ctx, id, k);
      }
    }
    if ctx.nodes[id].kind == Selective {
      forall i, k, j, l | IsBranch(ctx, id, i, k) && IsBranch(ctx, id, j, l) && (i < j || (i == j && k < l))
        ensures ToldApart(BranchEdge(ctx, OutEdges(ctx, id), i, k), BranchEdge(ctx, OutEdges(ctx, id), j, l))
      {
        SelectiveRulesDiffer(ctx, id, i, k, j, l);
      }
    }
  }

  lemma {:induction false} WalkStaysInside(ctx: Context, p: seq<string>)
    requires Endpoints(ctx) && IsPath(ForwardGraph(ctx), p) && p[0] in ctx.nodes
    ensures forall k | 0 <= k < |p| :: p[k] in ctx.nodes
  {
    forall v, w | v in ctx.nodes.Keys && w in Succ(ForwardGraph(ctx), v) ensures w in ctx.nodes.Keys {
      SourceIsNode(ctx, v, w);
    }
    ClosedHoldsPath(ForwardGraph(ctx), ctx.nodes.Keys, p);
  }

  lemma DistinctWalkShort(ctx: Context, p: seq<string>)
    requires Distinct(p) && |p| > 0 && forall k | 0 <= k < |p| :: p[k] in ctx.nodes
    ensures |p| - 1 < |ctx.nodes|
  {
    DistinctLength(p);
    SubsetSize(Elements(p), ctx.nodes.Keys);
  }

  lemma DeadEndIsEnd(ctx: Context, v: string)
    requires Bounded(ctx) && ReachesAnEnd(ctx, v)
    ensures Targets(ctx, v) == [] <==> IsEnd(ctx, v)
  {
    var e :| IsEnd(ctx, e) && Reaches(ForwardGraph(ctx), v, e);
    if Targets(ctx, v) == [] {
      DeadEndReachesSelf(ForwardGraph(ctx), v, e);
    }
  }

  /** Every walk over an accepted canvas has fewer edges than the canvas has nodes, and one that
      cannot be continued has stopped at an end node. */
  lemma AcceptedWalksEnd(ctx: Context, p: seq<string>)
    requires Accepted(ctx) && IsPath(ForwardGraph(ctx), p) && p[0] in ctx.nodes
    ensures |p| - 1 < |ctx.nodes|
    ensures Targets(ctx, p[|p| - 1]) == [] <==> IsEnd(ctx, p[|p| - 1])
  {
    WalkStaysInside(ctx, p);
    AcyclicPathDistinct(ForwardGraph(ctx), p);
    DistinctWalkShort(ctx, p);
    AcceptedShape(ctx, p[|p| - 1]);
    DeadEndIsEnd(ctx, p[|p| - 1]);
  }

  /** The prefix of a walk up to its first stopping node is a walk of the pruned canvas. */
  lemma {:induction false} PrunedPrefix(ctx: Context, flag: bool, p: seq<string>, n: nat)
    requires IsPath(ForwardGraph(ctx), p) && n < |p| && forall k | 0 <= k < n :: !Stops(ctx, p[k], flag)
    ensures Reaches(Pruned(ctx, flag), p[0], p[n])
  {
    var q := p[..n + 1];
    forall k: nat | k + 1 < |q| ensures Hop(Pruned(ctx, flag), q, k) {
      assert Hop(ForwardGraph(ctx), p, k);
      assert !Stops(ctx, p[k], flag);
    }
    assert Connects(Pruned(ctx, flag), q, p[0], p[n]);
  }

  lemma PairedPathsMerge(ctx: Context, b: string, p: seq<string>)
    requires !BranchEnds(ctx, b) && IsPath(ForwardGraph(ctx), p) && p[0] == b && KindOf(ctx, p[|p| - 1]).EndNode?
    ensures exists j :: 0 <= j < |p| - 1 && KindOf(ctx, p[j]).Merge()
  {
    var j := FirstStop(ctx, p);
    PrunedPrefix(ctx, false, p, j);
    EndsBranch(ctx, p, j);
  }

  /** Every walk from a branch of a parallel split to an end node crosses a merge gateway before it
      gets there. */
  lemma ForkPathsMerge(ctx: Context, fork: string, k: nat, p: seq<string>)
    requires Accepted(ctx) && fork in ctx.nodes && ctx.nodes[fork].kind.Parallel? && |OutEdges(ctx, fork)| > 1
    requires k < |Targets(ctx, fork)| && IsPath(ForwardGraph(ctx), p) && p[0] == Targets(ctx, fork)[k]
    requires KindOf(ctx, p[|p| - 1]).EndNode?
    ensures exists j :: 0 <= j < |p| - 1 && KindOf(ctx, p[j]).Merge()
  {
    AcceptedShape(ctx, fork);
    assert !BranchEnds(ctx, Targets(ctx, fork)[k]);
    PairedPathsMerge(ctx, p[0], p);
  }

  lemma EndsBranch(ctx: Context, p: seq<string>, j: nat)
    requires j < |p| && Stops(ctx, p[j], false) && Reaches(Pruned(ctx, false), p[0], p[j]) && !BranchEnds(ctx, p[0])
    requires KindOf(ctx, p[|p| - 1]).EndNode?
    ensures j < |p| - 1 && KindOf(ctx, p[j]).Merge()
  {
  }

  lemma {:induction false} FirstStop(ctx: Context, p: seq<string>) returns (j: nat)
    requires |p| > 0 && Stops(ctx, p[|p| - 1], false)
    ensures j < |p| && Stops(ctx, p[j], false) && forall i | 0 <= i < j :: !Stops(ctx, p[i], false)
  {
    j := 0;
    while !Stops(ctx, p[j], false)
      invariant j < |p| && forall i | 0 <= i < j :: !Stops(ctx, p[i], false)
      decreases |p| - j
    {
      j := j + 1;
    }
  }

  lemma {:induction false} PrunedReach(ctx: Context, flag: bool, a: string, b: string)
    requires Reaches(Pruned(ctx, flag), a, b)
    ensures Reaches(ForwardGraph(ctx), a, b)
  {
    var p :| Connects(Pruned(ctx, flag), p, a, b);
    forall k: nat | k + 1 < |p| ensures Hop(ForwardGraph(ctx), p, k) { assert Hop(Pruned(ctx, flag), p, k); }
    assert Connects(ForwardGraph(ctx), p, a, b);
  }

  /** Where a branch cannot make a merge gateway further on wait for the others: at a merge gateway before it, or at a
      condition in which several branches come together. */
  predicate Releases(ctx: Context, v: string) {
    KindOf(ctx, v) == Parallel || KindOf(ctx, v) == Inclusion || (KindOf(ctx, v) == Condition && |Prevs(ctx, v)| > 1)
  }

  /** Every walk from `b` to `m` is released on the way. */
  ghost predicate ReleasedBefore(ctx: Context, b: string, m: string) {
    forall p {:trigger IsPath(ForwardGraph(ctx), p)} | IsPath(ForwardGraph(ctx), p) && p[0] == b && p[|p| - 1] == m ::
      exists j :: 0 <= j < |p| - 1 && Releases(ctx, p[j])
  }

  /** A condition starts one of its branches only. In an accepted canvas no merge gateway waits for all of them: one branch
      is released before, whichever way it goes. */
  lemma ConditionsDoNotBlock(ctx: Context, id: string, m: string)
    requires Accepted(ctx) && id in ctx.nodes && ctx.nodes[id].kind == Condition && |OutEdges(ctx, id)| > 1
    requires KindOf(ctx, m) == Parallel || KindOf(ctx, m) == Inclusion
    ensures exists k :: 0 <= k < |Targets(ctx, id)| && ReleasedBefore(ctx, Targets(ctx, id)[k], m)
  {
    AcceptedShape(ctx, id);
    assert !SharedMerge(ctx, id, m, true);
    var k :| 0 <= k < |Targets(ctx, id)| && !Reaches(Pruned(ctx, true), Targets(ctx, id)[k], m);
    forall p | IsPath(ForwardGraph(ctx), p) && p[0] == Targets(ctx, id)[k] && p[|p| - 1] == m
      ensures exists j :: 0 <= j < |p| - 1 && Releases(ctx, p[j])
    {
      ReleasedOnTheWay(ctx, p);
    }
  }

  lemma ReleasedOnTheWay(ctx: Context, p: seq<string>)
    requires Bounded(ctx) && Endpoints(ctx) && IsPath(ForwardGraph(ctx), p) && !Reaches(Pruned(ctx, true), p[0], p[|p| - 1])
    ensures exists j :: 0 <= j < |p| - 1 && Releases(ctx, p[j])
  {
    if forall j | 0 <= j < |p| - 1 :: !Stops(ctx, p[j], true) { PrunedPrefix(ctx, true, p, |p| - 1); }
    var j :| 0 <= j < |p| - 1 && Stops(ctx, p[j], true);
    assert Hop(ForwardGraph(ctx), p, j);
    assert Releases(ctx, p[j]);
  }

  /** In an accepted canvas a selective gateway has several ways on, all into conditions. */
  lemma SelectivesSplit(ctx: Context, id: string)
    requires Accepted(ctx) && id in ctx.nodes && ctx.nodes[id].kind == Selective
    ensures |OutEdges(ctx, id)| >= 2 && forall k | 0 <= k < |OutEdges(ctx, id)| :: KindOf(ctx, OutEdges(ctx, id)[k].target) == Condition
  {
    AcceptedShape(ctx, id);
    forall k | 0 <= k < |OutEdges(ctx, id)| ensures KindOf(ctx, OutEdges(ctx, id)[k].target) == Condition {
      assert Targets(ctx, id)[k] in Targets(ctx, id);
    }
  }

  /** Merge gateway `m` lies downstream of every branch of `fork`. */
  ghost predicate BranchesMeetAt(ctx: Context, fork: string, m: string) {
    KindOf(ctx, m).Merge()
    && forall k | 0 <= k < |Targets(ctx, fork)| :: Reaches(ForwardGraph(ctx), Targets(ctx, fork)[k], m)
  }

  lemma PairedBranchesMeet(ctx: Context, fork: string, m: string)
    requires SharedMerge(ctx, fork, m, false)
    ensures BranchesMeetAt(ctx, fork, m)
  {
    forall k | 0 <= k < |Targets(ctx, fork)| ensures Reaches(ForwardGraph(ctx), Targets(ctx, fork)[k], m) {
      PrunedReach(ctx, false, Targets(ctx, fork)[k], m);
    }
  }

  /** All branches of a parallel split of an accepted canvas meet at one merge gateway. */
  lemma ForkBranchesMeet(ctx: Context, fork: string)
    requires Accepted(ctx) && fork in ctx.nodes && ctx.nodes[fork].kind.Parallel? && |OutEdges(ctx, fork)| > 1
    ensures exists m :: BranchesMeetAt(ctx, fork, m)
  {
    AcceptedShape(ctx, fork);
    var m :| SharedMerge(ctx, fork, m, false);
    PairedBranchesMeet(ctx, fork, m);
  }

  // ---------------------------------------------------------------- what pairing does not guarantee

  /** `m` is among the first merge gateways seen from some branch of the fork. */
  ghost predicate SeenMerge(ctx: Context, fork: string, m: string) {
    KindOf(ctx, m).Merge()
    && exists k :: 0 <= k < |Targets(ctx, fork)| && Reaches(Pruned(ctx, false), Targets(ctx, fork)[k], m)
  }

  /** The first merge gateway on the walk is one that all branches of the fork share. */
  ghost predicate FirstMergeShared(ctx: Context, fork: string, p: seq<string>) {
    exists j :: 0 <= j < |p| && SharedMerge(ctx, fork, p[j], false) && forall i | 0 <= i < j :: !Stops(ctx, p[i], false)
  }

  /** A walk from a branch of the fork to an end node. */
  ghost predicate BranchWalk(ctx: Context, fork: string, p: seq<string>) {
    IsPath(ForwardGraph(ctx), p) && p[0] in Targets(ctx, fork) && KindOf(ctx, p[|p| - 1]).EndNode?
  }

  lemma SharedByWalk(ctx: Context, fork: string, p: seq<string>)
    requires BranchWalk(ctx, fork, p) && !AnyEnds(ctx, Targets(ctx, fork))
    requires forall m {:trigger SeenMerge(ctx, fork, m)} | SeenMerge(ctx, fork, m) :: SharedMerge(ctx, fork, m, false)
    ensures FirstMergeShared(ctx, fork, p)
  {
    var k :| 0 <= k < |Targets(ctx, fork)| && Targets(ctx, fork)[k] == p[0];
    assert !BranchEnds(ctx, Targets(ctx, fork)[k]);
    var j := FirstStop(ctx, p);
    PrunedPrefix(ctx, false, p, j);
    EndsBranch(ctx, p, j);
    assert SeenMerge(ctx, fork, p[j]);
  }

  lemma {:induction false} PrunedWalkOpen(ctx: Context, p: seq<string>)
    requires IsPath(Pruned(ctx, false), p)
    ensures IsPath(ForwardGraph(ctx), p) && forall i | 0 <= i < |p| - 1 :: !Stops(ctx, p[i], false)
  {
    forall k: nat | k + 1 < |p| ensures Hop(ForwardGraph(ctx), p, k) && !Stops(ctx, p[k], false) {
      assert Hop(Pruned(ctx, false), p, k);
    }
  }

  lemma FirstIsAt(ctx: Context, fork: string, p: seq<string>, n: nat)
    requires n < |p| && Stops(ctx, p[n], false) && forall i | 0 <= i < n :: !Stops(ctx, p[i], false)
    requires FirstMergeShared(ctx, fork, p)
    ensures SharedMerge(ctx, fork, p[n], false)
  {
    var j :| 0 <= j < |p| && SharedMerge(ctx, fork, p[j], false) && forall i | 0 <= i < j :: !Stops(ctx, p[i], false);
    assert Stops(ctx, p[j], false);
  }

  lemma PrunedThen(ctx: Context, q: seq<string>, r: seq<string>)
    requires IsPath(Pruned(ctx, false), q) && IsPath(ForwardGraph(ctx), r) && q[|q| - 1] == r[0]
    ensures var p := q + r[1..];
      IsPath(ForwardGraph(ctx), p) && p[|q| - 1] == r[0] && p[|p| - 1] == r[|r| - 1]
      && forall i | 0 <= i < |q| - 1 :: !Stops(ctx, p[i], false)
  {
    PrunedWalkOpen(ctx, q);
    JoinedPath(ForwardGraph(ctx), q, r);
  }

  lemma WalkThrough(ctx: Context, fork: string, m: string) returns (p: seq<string>)
    requires SeenMerge(ctx, fork, m) && ReachesAnEnd(ctx, m)
    ensures BranchWalk(ctx, fork, p)
    ensures FirstMergeShared(ctx, fork, p) ==> SharedMerge(ctx, fork, m, false)
  {
    var k :| 0 <= k < |Targets(ctx, fork)| && Reaches(Pruned(ctx, false), Targets(ctx, fork)[k], m);
    var q :| Connects(Pruned(ctx, false), q, Targets(ctx, fork)[k], m);
    var e :| IsEnd(ctx, e) && Reaches(ForwardGraph(ctx), m, e);
    var r :| Connects(ForwardGraph(ctx), r, m, e);
    PrunedThen(ctx, q, r);
    p := q + r[1..];
    if FirstMergeShared(ctx, fork, p) {
      FirstIsAt(ctx, fork, p, |q| - 1);
    }
  }

  /** Acceptance asks for one shared merge gateway, not that every branch walk meets a shared one first.
      That holds exactly when all branches see the same first merge gateways. */
  lemma SharedMergeFirstExactly(ctx: Context, fork: string)
    requires Accepted(ctx) && Endpoints(ctx) && fork in ctx.nodes && ctx.nodes[fork].kind.Parallel? && |OutEdges(ctx, fork)| > 1
    ensures (forall p {:trigger BranchWalk(ctx, fork, p)} | BranchWalk(ctx, fork, p) :: FirstMergeShared(ctx, fork, p)) <==>
      (forall m {:trigger SeenMerge(ctx, fork, m)} | SeenMerge(ctx, fork, m) :: SharedMerge(ctx, fork, m, false))
  {
    AcceptedShape(ctx, fork);
    if forall m {:trigger SeenMerge(ctx, fork, m)} | SeenMerge(ctx, fork, m) :: SharedMerge(ctx, fork, m, false) {
      forall p | BranchWalk(ctx, fork, p) ensures FirstMergeShared(ctx, fork, p) {
        SharedByWalk(ctx, fork, p);
      }
    } else {
      var m :| SeenMerge(ctx, fork, m) && !SharedMerge(ctx, fork, m, false);
      AcceptedShape(ctx, m);
      var p := WalkThrough(ctx, fork, m);
    }
  }
}
