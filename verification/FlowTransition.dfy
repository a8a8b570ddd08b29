/** Routing out of a node: matching edges, then passing through gateways whose joins are open. */
module FlowTransition {
  import opened Prelude
  import opened Graphs
  import opened FlowPlan

  datatype FlowError = UndefinedNode(id: string) | UndefinedTarget(id: string)

  datatype Transition = Transition(targets: seq<NodeSpec>, skipped: seq<NodeSpec>)

  /** Rule groups are evaluated by `eval`; parallel gateways and edges without a rule always match. */
  predicate Matched(kind: NodeType, e: EdgeSpec, eval: string -> bool) {
    kind.Parallel? || e.rule.None? || eval(e.rule.value)
  }

  // ---------------------------------------------------------------- one node's transition

  function FirstMatch(kind: NodeType, edges: seq<EdgeSpec>, eval: string -> bool): (k: nat)
    ensures k <= |edges| && (k < |edges| ==> Matched(kind, edges[k], eval))
    ensures forall j | 0 <= j < k :: !Matched(kind, edges[j], eval)
  {
    if edges == [] || Matched(kind, edges[0], eval) then 0 else 1 + FirstMatch(kind, edges[1..], eval)
  }

  /** The edges looked at: an exclusive gateway stops at its first matching edge. */
  function Considered(kind: NodeType, edges: seq<EdgeSpec>, eval: string -> bool): seq<EdgeSpec> {
    var k := FirstMatch(kind, edges, eval);
    if kind.Exclusive? && k < |edges| then edges[..k + 1] else edges
  }

  predicate Defined(plan: ExecutionPlan, edges: seq<EdgeSpec>) {
    forall k | 0 <= k < |edges| :: edges[k].target in plan.nodes
  }

  function FirstUndefined(plan: ExecutionPlan, edges: seq<EdgeSpec>): string
    requires !Defined(plan, edges)
  {
    if edges[0].target !in plan.nodes then edges[0].target else FirstUndefined(plan, edges[1..])
  }

  /** The targets of the edges that match, or of those that do not. */
  function Pick(plan: ExecutionPlan, edges: seq<EdgeSpec>, kind: NodeType, eval: string -> bool, wanted: bool)
    : (r: seq<NodeSpec>)
    requires Defined(plan, edges)
    ensures forall n :: n in r <==>
      exists k :: 0 <= k < |edges| && plan.nodes[edges[k].target] == n && Matched(kind, edges[k], eval) == wanted
  {
    if edges == [] then [] else
    var rest, last := edges[..|edges| - 1], edges[|edges| - 1];
    var r := Pick(plan, rest, kind, eval, wanted);
    assert forall k | 0 <= k < |rest| :: rest[k] == edges[k];
    if Matched(kind, last, eval) == wanted then r + [plan.nodes[last.target]] else r
  }

  function TransitionOf(plan: ExecutionPlan, id: string, eval: string -> bool): Result<Transition, FlowError> {
    var edges := Out(plan, id);
    if edges == [] then Ok(Transition([], []))
    else if id !in plan.nodes then Err(UndefinedNode(id))
    else Taken(plan, edges, plan.nodes[id].kind, eval)
  }

  function Taken(plan: ExecutionPlan, edges: seq<EdgeSpec>, kind: NodeType, eval: string -> bool): Result<Transition, FlowError> {
    var seen := Considered(kind, edges, eval);
    if !Defined(plan, seen) then Err(UndefinedTarget(FirstUndefined(plan, seen)))
    else Ok(Transition(Pick(plan, seen, kind, eval, true),
                       if kind.Inclusive? then Pick(plan, seen, kind, eval, false) else []))
  }

  lemma {:induction false} FirstUndefinedAt(plan: ExecutionPlan, edges: seq<EdgeSpec>, k: nat)
    requires k < |edges| && Defined(plan, edges[..k]) && edges[k].target !in plan.nodes
    ensures !Defined(plan, edges) && FirstUndefined(plan, edges) == edges[k].target
  {
    if k > 0 {
      var before := edges[..k];
      assert before[0] == edges[0] && edges[1..][..k - 1] == before[1..];
      assert Defined(plan, before[1..]);
      FirstUndefinedAt(plan, edges[1..], k - 1);
    }
  }

  lemma NoMatchBefore(kind: NodeType, edges: seq<EdgeSpec>, eval: string -> bool, k: nat)
    requires k < |edges| && forall j | 0 <= j < k :: !Matched(kind, edges[j], eval)
    ensures k <= FirstMatch(kind, edges, eval)
    ensures Matched(kind, edges[k], eval) ==> FirstMatch(kind, edges, eval) == k
  {
  }

  ghost predicate Sorted(plan: ExecutionPlan, edges: seq<EdgeSpec>, k: nat, kind: NodeType, eval: string -> bool,
                         targets: seq<NodeSpec>, skipped: seq<NodeSpec>)
    requires k <= |edges|
  {
    && Defined(plan, edges[..k])
    && targets == Pick(plan, edges[..k], kind, eval, true)
    && skipped == (if kind.Inclusive? then Pick(plan, edges[..k], kind, eval, false) else [])
    && (kind.Exclusive? ==> forall j | 0 <= j < k :: !Matched(kind, edges[j], eval))
  }

  lemma PickStep(plan: ExecutionPlan, edges: seq<EdgeSpec>, k: nat, kind: NodeType, eval: string -> bool, wanted: bool)
    requires k < |edges| && Defined(plan, edges[..k]) && edges[k].target in plan.nodes
    ensures Defined(plan, edges[..k + 1])
    ensures Pick(plan, edges[..k + 1], kind, eval, wanted) ==
      Pick(plan, edges[..k], kind, eval, wanted)
      + if Matched(kind, edges[k], eval) == wanted then [plan.nodes[edges[k].target]] else []
  {
    assert edges[..k + 1][..k] == edges[..k];
  }

  method CalculateTransition(plan: ExecutionPlan, id: string, eval: string -> bool)
    returns (r: Result<Transition, FlowError>)
    ensures r == TransitionOf(plan, id, eval)
    ensures r.Err? <==> Out(plan, id) != [] && (id !in plan.nodes || exists k :: Dangling(plan, id, eval, k))
    ensures r.Ok? && id in plan.nodes ==> ByKind(plan, id, eval, r.value)
  {
    TransitionFailsExactly(plan, id, eval);
    if id in plan.nodes && TransitionOf(plan, id, eval).Ok? { TransitionByKind(plan, id, eval); }
    var edges := Out(plan, id);
    if edges == [] {
      return Ok(Transition([], []));
    }
    if id !in plan.nodes {
      return Err(UndefinedNode(id));
    }
    r := TakeEdges(plan, edges, plan.nodes[id].kind, eval);
  }

  /** Looks at the edges in order. */
  method TakeEdges(plan: ExecutionPlan, edges: seq<EdgeSpec>, kind: NodeType, eval: string -> bool)
    returns (r: Result<Transition, FlowError>)
    ensures r == Taken(plan, edges, kind, eval)
  {
    var targets: seq<NodeSpec>, skipped: seq<NodeSpec> := [], [];
    for k := 0 to |edges|
      invariant Sorted(plan, edges, k, kind, eval, targets, skipped)
    {
      var e := edges[k];
      if e.target !in plan.nodes {
        StopsUndefined(plan, edges, k, kind, eval);
        return Err(UndefinedTarget(e.target));
      }
      PickStep(plan, edges, k, kind, eval, true);
      PickStep(plan, edges, k, kind, eval, false);
      if Matched(kind, e, eval) {
        targets := targets + [plan.nodes[e.target]];
        if kind.Exclusive? {
          NoMatchBefore(kind, edges, eval, k);
          return Ok(Transition(targets, skipped));
        }
      } else if kind.Inclusive? {
        skipped := skipped + [plan.nodes[e.target]];
      }
    }
    AllSorted(plan, edges, kind, eval, targets, skipped);
    r := Ok(Transition(targets, skipped));
  }

  lemma AllSorted(plan: ExecutionPlan, edges: seq<EdgeSpec>, kind: NodeType, eval: string -> bool,
                  targets: seq<NodeSpec>, skipped: seq<NodeSpec>)
    requires Sorted(plan, edges, |edges|, kind, eval, targets, skipped)
    ensures Taken(plan, edges, kind, eval) == Ok(Transition(targets, skipped))
  {
    assert edges[..|edges|] == edges;
    assert Considered(kind, edges, eval) == edges;
  }

  lemma StopsUndefined(plan: ExecutionPlan, edges: seq<EdgeSpec>, k: nat, kind: NodeType, eval: string -> bool)
    requires k < |edges| && Defined(plan, edges[..k]) && edges[k].target !in plan.nodes
    requires kind.Exclusive? ==> forall j | 0 <= j < k :: !Matched(kind, edges[j], eval)
    ensures !Defined(plan, Considered(kind, edges, eval))
    ensures FirstUndefined(plan, Considered(kind, edges, eval)) == edges[k].target
  {
    var seen := Considered(kind, edges, eval);
    if kind.Exclusive? { NoMatchBefore(kind, edges, eval, k); }
    assert seen[..k] == edges[..k] && seen[k] == edges[k];
    FirstUndefinedAt(plan, seen, k);
  }

  // ---------------------------------------------------------------- what the kinds mean

  /** An edge without a rule holds always. */
  predicate Holds(e: EdgeSpec, eval: string -> bool) { e.rule == None || eval(e.rule.value) }

  predicate TakesAll(plan: ExecutionPlan, edges: seq<EdgeSpec>, targets: seq<NodeSpec>) {
    |targets| == |edges|
    && forall k | 0 <= k < |edges| :: edges[k].target in plan.nodes && targets[k] == plan.nodes[edges[k].target]
  }

  /** The positions, in order, of the edges that hold, or of those that do not. */
  ghost predicate HoldingAt(edges: seq<EdgeSpec>, eval: string -> bool, wanted: bool, ps: seq<nat>) {
    && (forall i, j | 0 <= i < j < |ps| :: ps[i] < ps[j])
    && (forall k: nat :: k in ps <==> k < |edges| && Holds(edges[k], eval) == wanted)
  }

  ghost predicate TakesAt(plan: ExecutionPlan, edges: seq<EdgeSpec>, ps: seq<nat>, nodes: seq<NodeSpec>) {
    |nodes| == |ps| && forall j | 0 <= j < |ps| ::
      ps[j] < |edges| && edges[ps[j]].target in plan.nodes && nodes[j] == plan.nodes[edges[ps[j]].target]
  }

  /** The targets, in order, of the edges that hold, or of those that do not. */
  ghost predicate TakesThose(plan: ExecutionPlan, edges: seq<EdgeSpec>, eval: string -> bool, wanted: bool, nodes: seq<NodeSpec>) {
    exists ps :: HoldingAt(edges, eval, wanted, ps) && TakesAt(plan, edges, ps, nodes)
  }

  /** The first edge that holds. */
  ghost predicate HoldsFirst(edges: seq<EdgeSpec>, eval: string -> bool, k: nat) {
    k < |edges| && Holds(edges[k], eval) && forall j | 0 <= j < k :: !Holds(edges[j], eval)
  }

  /** An exclusive gateway takes its first edge that holds and no other, a parallel one takes all, an inclusive one takes
      those that hold and skips the others, any other node takes those that hold. */
  ghost predicate ByKind(plan: ExecutionPlan, id: string, eval: string -> bool, t: Transition)
    requires id in plan.nodes
  {
    var edges := Out(plan, id);
    match plan.nodes[id].kind
    case Exclusive =>
      && t.skipped == [] && ((forall k | 0 <= k < |edges| :: !Holds(edges[k], eval)) ==> t.targets == [])
      && forall k: nat {:trigger HoldsFirst(edges, eval, k)} | HoldsFirst(edges, eval, k) ::
           edges[k].target in plan.nodes && t.targets == [plan.nodes[edges[k].target]]
    case Parallel => t.skipped == [] && TakesAll(plan, edges, t.targets)
    case Inclusive => TakesThose(plan, edges, eval, true, t.targets) && TakesThose(plan, edges, eval, false, t.skipped)
    case _ => t.skipped == [] && TakesThose(plan, edges, eval, true, t.targets)
  }

  /** An edge is looked at that leads to no known node: any, but behind an edge that an exclusive gateway takes. */
  ghost predicate Dangling(plan: ExecutionPlan, id: string, eval: string -> bool, k: nat)
    requires id in plan.nodes
  {
    var edges := Out(plan, id);
    && k < |edges| && edges[k].target !in plan.nodes
    && (plan.nodes[id].kind == Exclusive ==> forall j | 0 <= j < k :: !Holds(edges[j], eval))
  }

  lemma TransitionByKind(plan: ExecutionPlan, id: string, eval: string -> bool)
    requires id in plan.nodes && TransitionOf(plan, id, eval).Ok?
    ensures ByKind(plan, id, eval, TransitionOf(plan, id, eval).value)
  {
    var kind, edges, t := plan.nodes[id].kind, Out(plan, id), TransitionOf(plan, id, eval).value;
    if edges == [] {
      NothingTaken(plan, edges, eval, true);
      NothingTaken(plan, edges, eval, false);
    } else if kind.Exclusive? {
      ExclusiveTakes(plan, id, eval);
    } else if kind.Parallel? {
      PickAll(plan, edges, eval);
    } else {
      PickThose(plan, edges, kind, eval, true);
      PickThose(plan, edges, kind, eval, false);
    }
  }

  /** A transition is undefined exactly for an unknown node with ways out, or if an edge looked at leads nowhere. */
  lemma TransitionFailsExactly(plan: ExecutionPlan, id: string, eval: string -> bool)
    ensures TransitionOf(plan, id, eval).Err? <==>
      Out(plan, id) != [] && (id !in plan.nodes || exists k :: Dangling(plan, id, eval, k))
  {
    var edges := Out(plan, id);
    if edges != [] && id in plan.nodes {
      var kind := plan.nodes[id].kind;
      var seen := Considered(kind, edges, eval);
      forall k: nat ensures Dangling(plan, id, eval, k) <==> k < |seen| && seen[k].target !in plan.nodes {
        if k < |edges| { LookedAt(kind, edges, eval, k); }
      }
      if !Defined(plan, seen) {
        var k: nat :| k < |seen| && seen[k].target !in plan.nodes;
        assert Dangling(plan, id, eval, k);
      }
    }
  }

  lemma LookedAt(kind: NodeType, edges: seq<EdgeSpec>, eval: string -> bool, k: nat)
    requires k < |edges|
    ensures var seen := Considered(kind, edges, eval);
      && (k < |seen| <==> (kind.Exclusive? ==> forall j | 0 <= j < k :: !Holds(edges[j], eval)))
      && (k < |seen| ==> seen[k] == edges[k])
  {
    var first := FirstMatch(kind, edges, eval);
    assert kind.Exclusive? && first < |edges| ==> (Holds(edges[first], eval) <==> Matched(kind, edges[first], eval));
    forall j | 0 <= j < k && j < first && kind.Exclusive? ensures !Holds(edges[j], eval) {
      assert !Matched(kind, edges[j], eval);
    }
  }

  lemma NothingTaken(plan: ExecutionPlan, edges: seq<EdgeSpec>, eval: string -> bool, wanted: bool)
    requires edges == []
    ensures TakesThose(plan, edges, eval, wanted, [])
  {
    assert HoldingAt(edges, eval, wanted, []) && TakesAt(plan, edges, [], []);
  }

  lemma ExclusiveTakes(plan: ExecutionPlan, id: string, eval: string -> bool)
    requires id in plan.nodes && plan.nodes[id].kind.Exclusive? && Out(plan, id) != [] && TransitionOf(plan, id, eval).Ok?
    ensures ByKind(plan, id, eval, TransitionOf(plan, id, eval).value)
  {
    var kind, edges := plan.nodes[id].kind, Out(plan, id);
    var k := FirstMatch(kind, edges, eval);
    FirstMatchHolds(edges, eval);
    PickUnmatched(plan, edges[..k], kind, eval);
    if k < |edges| { PickStep(plan, edges, k, kind, eval, true); } else { assert edges[..k] == edges; }
  }

  lemma FirstMatchHolds(edges: seq<EdgeSpec>, eval: string -> bool)
    ensures var k := FirstMatch(Exclusive, edges, eval);
      && (k < |edges| ==> Holds(edges[k], eval)) && (forall j | 0 <= j < k :: !Holds(edges[j], eval))
      && (forall i: nat {:trigger HoldsFirst(edges, eval, i)} | HoldsFirst(edges, eval, i) :: i == k)
  {
    var k := FirstMatch(Exclusive, edges, eval);
    forall j | 0 <= j < k ensures !Holds(edges[j], eval) { assert !Matched(Exclusive, edges[j], eval); }
  }

  lemma {:induction false} PickUnmatched(plan: ExecutionPlan, edges: seq<EdgeSpec>, kind: NodeType, eval: string -> bool)
    requires forall k | 0 <= k < |edges| :: !Matched(kind, edges[k], eval)
    ensures Defined(plan, edges) ==> Pick(plan, edges, kind, eval, true) == []
  {
    if edges != [] {
      var rest := edges[..|edges| - 1];
      assert Defined(plan, edges) ==> Defined(plan, rest);
      PickUnmatched(plan, rest, kind, eval);
    }
  }

  lemma {:induction false} PickAll(plan: ExecutionPlan, edges: seq<EdgeSpec>, eval: string -> bool)
    requires Defined(plan, edges)
    ensures TakesAll(plan, edges, Pick(plan, edges, Parallel, eval, true))
  {
    if edges != [] { PickAll(plan, edges[..|edges| - 1], eval); }
  }

  lemma PickThose(plan: ExecutionPlan, edges: seq<EdgeSpec>, kind: NodeType, eval: string -> bool, wanted: bool)
    requires Defined(plan, edges) && !kind.Parallel?
    ensures TakesThose(plan, edges, eval, wanted, Pick(plan, edges, kind, eval, wanted))
  {
    var ps := PickedAt(plan, edges, kind, eval, wanted);
  }

  lemma {:induction false} PickedAt(plan: ExecutionPlan, edges: seq<EdgeSpec>, kind: NodeType, eval: string -> bool, wanted: bool)
    returns (ps: seq<nat>)
    requires Defined(plan, edges) && !kind.Parallel?
    ensures HoldingAt(edges, eval, wanted, ps) && TakesAt(plan, edges, ps, Pick(plan, edges, kind, eval, wanted))
  {
    ps := [];
    if edges != [] {
      var rest, last := edges[..|edges| - 1], |edges| - 1;
      ps := PickedAt(plan, rest, kind, eval, wanted);
      var before := ps;
      if Holds(edges[last], eval) == wanted { ps := ps + [last]; }
      NextHolding(edges, eval, wanted, before, ps);
    }
  }

  lemma NextHolding(edges: seq<EdgeSpec>, eval: string -> bool, wanted: bool, before: seq<nat>, ps: seq<nat>)
    requires |edges| > 0 && HoldingAt(edges[..|edges| - 1], eval, wanted, before)
    requires ps == if Holds(edges[|edges| - 1], eval) == wanted then before + [|edges| - 1] else before
    ensures HoldingAt(edges, eval, wanted, ps)
  {
    forall i, j | 0 <= i < j < |ps| ensures ps[i] < ps[j] { assert ps[i] == before[i] && before[i] in before; }
  }
}
