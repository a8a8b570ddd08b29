/** The step decision: the least set of nodes reached by passing through gateways with open joins. */
module FlowStep {
  import opened Prelude
  import opened Graphs
  import opened FlowPlan
  import opened FlowTransition

  datatype Decision = Decision(ready: seq<NodeSpec>, skipped: seq<NodeSpec>, blocked: bool)

  function Ids(nodes: seq<NodeSpec>): (r: seq<string>)
    ensures |r| == |nodes| && forall k | 0 <= k < |r| :: r[k] == nodes[k].id
  {
    seq(|nodes|, k requires 0 <= k < |nodes| => nodes[k].id)
  }

  predicate IsGatewayIn(plan: ExecutionPlan, id: string) { id in plan.nodes && plan.nodes[id].IsGateway() }

  /** Gateways the flow passes through. */
  predicate Passes(plan: ExecutionPlan, open: string -> bool, id: string) { IsGatewayIn(plan, id) && open(id) }

  function TargetIds(plan: ExecutionPlan, eval: string -> bool, id: string): seq<string> {
    match TransitionOf(plan, id, eval)
    case Ok(t) => Ids(t.targets)
    case Err(_) => []
  }

  /** Matched edges out of open gateways. */
  function Routes(plan: ExecutionPlan, eval: string -> bool, open: string -> bool): (g: Graph)
    ensures forall id :: Succ(g, id) == if Passes(plan, open, id) then TargetIds(plan, eval, id) else []
  {
    map id | id in plan.nodes && Passes(plan, open, id) :: TargetIds(plan, eval, id)
  }

  // ---------------------------------------------------------------- the decision, declaratively

  /** Skips of the expanded gateways, in the order of their expansion. */
  function SkipsOf(plan: ExecutionPlan, eval: string -> bool, order: seq<string>): seq<NodeSpec> {
    if order == [] then [] else
    var last := order[|order| - 1];
    SkipsOf(plan, eval, order[..|order| - 1])
    + match TransitionOf(plan, last, eval) case Ok(t) => t.skipped case Err(_) => []
  }

  /** Targets of the expanded gateways, in the order of their expansion. */
  function TargetsOf(plan: ExecutionPlan, eval: string -> bool, order: seq<string>): seq<NodeSpec> {
    if order == [] then [] else
    var last := order[|order| - 1];
    TargetsOf(plan, eval, order[..|order| - 1])
    + match TransitionOf(plan, last, eval) case Ok(t) => t.targets case Err(_) => []
  }

  /** `a` is listed before `b` is listed first. */
  ghost predicate SeenBefore(seen: seq<NodeSpec>, a: string, b: string) {
    exists k :: 0 <= k < |seen| && seen[k].id == a && forall l | 0 <= l <= k :: seen[l].id != b
  }

  ghost predicate InOrderSeen(seen: seq<NodeSpec>, ids: seq<string>) {
    forall i, j | 0 <= i < j < |ids| :: SeenBefore(seen, ids[i], ids[j])
  }

  /** Breadth first: nodes become ready, and gateways are expanded, in the order in which they are first listed among the
      targets of the node and then of the expanded gateways, one gateway after the other. */
  ghost predicate BreadthFirst(plan: ExecutionPlan, eval: string -> bool, first: seq<NodeSpec>, ready: seq<NodeSpec>,
                               order: seq<string>) {
    var seen := first + TargetsOf(plan, eval, order);
    InOrderSeen(seen, Ids(ready)) && InOrderSeen(seen, order)
  }

  /** The ready nodes are, once each, the non-gateways reached. */
  ghost predicate ReadyExactly(plan: ExecutionPlan, g: Graph, seeds: seq<string>, ready: seq<NodeSpec>) {
    && (forall i, j | 0 <= i < j < |ready| :: ready[i].id != ready[j].id)
    && (forall n | n in ready :: n.id in plan.nodes && plan.nodes[n.id] == n)
    && forall v {:trigger FromSeeds(g, seeds, v)} ::
         (v in Ids(ready) <==> FromSeeds(g, seeds, v) && !IsGatewayIn(plan, v))
  }

  /** Every reached gateway with an open join was expanded, once. */
  ghost predicate ExpandedExactly(plan: ExecutionPlan, g: Graph, seeds: seq<string>, open: string -> bool, order: seq<string>) {
    Distinct(order)
    && forall v {:trigger FromSeeds(g, seeds, v)} :: v in order <==> FromSeeds(g, seeds, v) && Passes(plan, open, v)
  }

  ghost predicate BlockedExactly(plan: ExecutionPlan, g: Graph, seeds: seq<string>, open: string -> bool, blocked: bool) {
    blocked <==> exists v :: FromSeeds(g, seeds, v) && IsGatewayIn(plan, v) && !open(v)
  }

  ghost predicate Decides(plan: ExecutionPlan, id: string, eval: string -> bool, open: string -> bool,
                          d: Decision, order: seq<string>)
    requires TransitionOf(plan, id, eval).Ok?
  {
    var first := TransitionOf(plan, id, eval).value;
    var g, seeds := Routes(plan, eval, open), Ids(first.targets);
    && ReadyExactly(plan, g, seeds, d.ready) && BlockedExactly(plan, g, seeds, open, d.blocked)
    && ExpandedExactly(plan, g, seeds, open, order) && d.skipped == first.skipped + SkipsOf(plan, eval, order)
  }

  /** The transition out of `id`, or out of some open gateway reached from it, is undefined. */
  ghost predicate Fails(plan: ExecutionPlan, id: string, eval: string -> bool, open: string -> bool) {
    match TransitionOf(plan, id, eval)
    case Err(_) => true
    case Ok(first) =>
      exists v :: FromSeeds(Routes(plan, eval, open), Ids(first.targets), v) && Passes(plan, open, v)
        && TransitionOf(plan, v, eval).Err?
  }

  // ---------------------------------------------------------------- the search

  ghost predicate KnownNodes(plan: ExecutionPlan, nodes: seq<NodeSpec>) {
    forall k | 0 <= k < |nodes| :: nodes[k].id in plan.nodes && plan.nodes[nodes[k].id] == nodes[k]
  }

  /** What has been handled so far: expanded gateways, ready nodes, shut gateways. */
  datatype Progress = Progress(order: seq<string>, ready: seq<NodeSpec>, shut: set<string>)

  ghost function Handled(p: Progress): set<string> { Elements(p.order) + Elements(Ids(p.ready)) + p.shut }

  ghost predicate Covers(g: Graph, seeds: seq<string>, queue: seq<NodeSpec>, p: Progress) {
    && (forall s | s in seeds :: s in Ids(queue) || s in Handled(p))
    && (forall v, w | v in p.order && w in Succ(g, v) :: w in Ids(queue) || w in Handled(p))
  }

  ghost predicate Honest(plan: ExecutionPlan, g: Graph, seeds: seq<string>, eval: string -> bool, open: string -> bool,
                         queue: seq<NodeSpec>, p: Progress) {
    && KnownNodes(plan, queue) && KnownNodes(plan, p.ready) && Distinct(Ids(p.ready)) && Distinct(p.order)
    && (forall v | v in Ids(queue) :: FromSeeds(g, seeds, v))
    && (forall v {:trigger v in Handled(p)} | v in Handled(p) :: FromSeeds(g, seeds, v))
    && (forall v | v in p.order :: Passes(plan, open, v) && TransitionOf(plan, v, eval).Ok?)
    && (forall v | v in Ids(p.ready) :: !IsGatewayIn(plan, v))
    && (forall v | v in p.shut :: IsGatewayIn(plan, v) && !open(v))
  }

  lemma IdsSplit(queue: seq<NodeSpec>)
    requires |queue| > 0
    ensures forall x :: x in Ids(queue) <==> x == queue[0].id || x in Ids(queue[1..])
  {
    assert Ids(queue) == [queue[0].id] + Ids(queue[1..]);
  }

  lemma IdsJoined(a: seq<NodeSpec>, b: seq<NodeSpec>)
    ensures Ids(a + b) == Ids(a) + Ids(b)
  {
  }

  lemma CoverStep(g: Graph, seeds: seq<string>, queue: seq<NodeSpec>, queue': seq<NodeSpec>, p: Progress, p': Progress)
    requires Covers(g, seeds, queue, p) && |queue| > 0
    requires Handled(p) <= Handled(p') && queue[0].id in Handled(p')
    requires forall x | x in Ids(queue[1..]) :: x in Ids(queue')
    requires forall v, w | v in p'.order && v !in p.order && w in Succ(g, v) :: w in Ids(queue')
    ensures Covers(g, seeds, queue', p')
  {
    IdsSplit(queue);
    forall v, w | v in p'.order && w in Succ(g, v) ensures w in Ids(queue') || w in Handled(p') {
      if v in p.order { assert w in Ids(queue) || w in Handled(p); }
    }
  }

  lemma TakeNode(plan: ExecutionPlan, g: Graph, seeds: seq<string>, eval: string -> bool, open: string -> bool,
                 queue: seq<NodeSpec>, p: Progress)
    requires Honest(plan, g, seeds, eval, open, queue, p) && |queue| > 0
    ensures Honest(plan, g, seeds, eval, open, queue[1..], p)
    ensures FromSeeds(g, seeds, queue[0].id) && queue[0].id in plan.nodes && plan.nodes[queue[0].id] == queue[0]
  {
    IdsSplit(queue);
  }

  lemma AddReady(plan: ExecutionPlan, g: Graph, seeds: seq<string>, eval: string -> bool, open: string -> bool,
                 queue: seq<NodeSpec>, p: Progress, n: NodeSpec)
    requires Honest(plan, g, seeds, eval, open, queue, p) && FromSeeds(g, seeds, n.id)
    requires n.id in plan.nodes && plan.nodes[n.id] == n && !n.IsGateway() && n.id !in Ids(p.ready)
    ensures var p' := p.(ready := p.ready + [n]);
      Honest(plan, g, seeds, eval, open, queue, p') && Handled(p') == Handled(p) + {n.id}
  {
    var p' := p.(ready := p.ready + [n]);
    assert Ids(p'.ready) == Ids(p.ready) + [n.id];
    assert Elements(Ids(p'.ready)) == Elements(Ids(p.ready)) + {n.id};
    forall x | x in Handled(p') ensures FromSeeds(g, seeds, x) {
      assert x == n.id || x in Handled(p);
    }
  }

  lemma AddShut(plan: ExecutionPlan, g: Graph, seeds: seq<string>, eval: string -> bool, open: string -> bool,
                queue: seq<NodeSpec>, p: Progress, v: string)
    requires Honest(plan, g, seeds, eval, open, queue, p) && FromSeeds(g, seeds, v)
    requires IsGatewayIn(plan, v) && !open(v)
    ensures var p' := p.(shut := p.shut + {v});
      Honest(plan, g, seeds, eval, open, queue, p') && Handled(p') == Handled(p) + {v}
  {
    var p' := p.(shut := p.shut + {v});
    forall x | x in Handled(p') ensures FromSeeds(g, seeds, x) {
      assert x == v || x in Handled(p);
    }
  }

  lemma AddExpanded(plan: ExecutionPlan, g: Graph, seeds: seq<string>, eval: string -> bool, open: string -> bool,
                    queue: seq<NodeSpec>, p: Progress, v: string)
    requires Honest(plan, g, seeds, eval, open, queue, p) && FromSeeds(g, seeds, v)
    requires Passes(plan, open, v) && TransitionOf(plan, v, eval).Ok? && v !in p.order
    ensures var p' := p.(order := p.order + [v]);
      Honest(plan, g, seeds, eval, open, queue, p') && Handled(p') == Handled(p) + {v}
  {
    var p' := p.(order := p.order + [v]);
    assert Elements(p'.order) == Elements(p.order) + {v};
    forall x | x in Handled(p') ensures FromSeeds(g, seeds, x) {
      assert x == v || x in Handled(p);
    }
  }

  lemma {:induction false} TargetsKnown(plan: ExecutionPlan, id: string, eval: string -> bool)
    requires Indexed(plan) && TransitionOf(plan, id, eval).Ok?
    ensures KnownNodes(plan, TransitionOf(plan, id, eval).value.targets)
  {
    var targets := TransitionOf(plan, id, eval).value.targets;
    forall k | 0 <= k < |targets| ensures targets[k].id in plan.nodes && plan.nodes[targets[k].id] == targets[k] {
      assert targets[k] in targets;
      var edges := Considered(plan.nodes[id].kind, Out(plan, id), eval);
      var j :| 0 <= j < |edges| && plan.nodes[edges[j].target] == targets[k];
    }
  }

  lemma QueueTargets(plan: ExecutionPlan, eval: string -> bool, open: string -> bool, seeds: seq<string>,
                     queue: seq<NodeSpec>, p: Progress, v: string)
    requires Indexed(plan) && Passes(plan, open, v) && TransitionOf(plan, v, eval).Ok?
    requires FromSeeds(Routes(plan, eval, open), seeds, v)
    requires Honest(plan, Routes(plan, eval, open), seeds, eval, open, queue, p)
    ensures Honest(plan, Routes(plan, eval, open), seeds, eval, open,
                   queue + TransitionOf(plan, v, eval).value.targets, p)
  {
    var g, targets := Routes(plan, eval, open), TransitionOf(plan, v, eval).value.targets;
    TargetsKnown(plan, v, eval);
    IdsJoined(queue, targets);
    forall x | x in Ids(queue + targets) ensures FromSeeds(g, seeds, x) {
      if x in Ids(targets) { NextReached(g, seeds, v, x); }
    }
  }

  lemma HandledExactly(plan: ExecutionPlan, g: Graph, seeds: seq<string>, eval: string -> bool, open: string -> bool,
                       p: Progress, v: string)
    requires Honest(plan, g, seeds, eval, open, [], p) && Covers(g, seeds, [], p)
    requires forall x :: |Succ(g, x)| > 0 ==> Passes(plan, open, x)
    ensures v in Handled(p) <==> FromSeeds(g, seeds, v)
  {
    assert forall x :: x !in Ids([]);
    if FromSeeds(g, seeds, v) {
      forall x, w | x in Handled(p) && w in Succ(g, x) ensures w in Handled(p) {
        assert Passes(plan, open, x);
        assert x in p.order;
      }
      SeedsHeld(g, seeds, Handled(p), v);
    }
  }

  /** The search invariant for the step out of a node. */
  ghost predicate Searching(plan: ExecutionPlan, seeds: seq<string>, eval: string -> bool, open: string -> bool,
                            queue: seq<NodeSpec>, p: Progress) {
    Honest(plan, Routes(plan, eval, open), seeds, eval, open, queue, p) && Covers(Routes(plan, eval, open), seeds, queue, p)
  }

  lemma SearchStarts(plan: ExecutionPlan, id: string, eval: string -> bool, open: string -> bool)
    requires Indexed(plan) && TransitionOf(plan, id, eval).Ok?
    ensures var targets := TransitionOf(plan, id, eval).value.targets;
      Searching(plan, Ids(targets), eval, open, targets, Progress([], [], {}))
  {
    TargetsKnown(plan, id, eval);
    var seeds := Ids(TransitionOf(plan, id, eval).value.targets);
    forall s | s in seeds ensures FromSeeds(Routes(plan, eval, open), seeds, s) {
      SeedReached(Routes(plan, eval, open), seeds, s);
    }
  }

  lemma SearchReady(plan: ExecutionPlan, seeds: seq<string>, eval: string -> bool, open: string -> bool,
                    queue: seq<NodeSpec>, p: Progress)
    requires Searching(plan, seeds, eval, open, queue, p) && |queue| > 0 && !queue[0].IsGateway()
    ensures Searching(plan, seeds, eval, open, queue[1..],
                      if queue[0].id in Ids(p.ready) then p else p.(ready := p.ready + [queue[0]]))
  {
    var g := Routes(plan, eval, open);
    TakeNode(plan, g, seeds, eval, open, queue, p);
    if queue[0].id in Ids(p.ready) {
      CoverStep(g, seeds, queue, queue[1..], p, p);
    } else {
      AddReady(plan, g, seeds, eval, open, queue[1..], p, queue[0]);
      CoverStep(g, seeds, queue, queue[1..], p, p.(ready := p.ready + [queue[0]]));
    }
  }

  lemma SearchShut(plan: ExecutionPlan, seeds: seq<string>, eval: string -> bool, open: string -> bool,
                   queue: seq<NodeSpec>, p: Progress)
    requires Searching(plan, seeds, eval, open, queue, p) && |queue| > 0 && queue[0].IsGateway() && !open(queue[0].id)
    ensures Searching(plan, seeds, eval, open, queue[1..], p.(shut := p.shut + {queue[0].id}))
  {
    var g := Routes(plan, eval, open);
    TakeNode(plan, g, seeds, eval, open, queue, p);
    AddShut(plan, g, seeds, eval, open, queue[1..], p, queue[0].id);
    CoverStep(g, seeds, queue, queue[1..], p, p.(shut := p.shut + {queue[0].id}));
  }

  lemma SearchSeen(plan: ExecutionPlan, seeds: seq<string>, eval: string -> bool, open: string -> bool,
                   queue: seq<NodeSpec>, p: Progress)
    requires Searching(plan, seeds, eval, open, queue, p) && |queue| > 0 && queue[0].id in p.order
    ensures Searching(plan, seeds, eval, open, queue[1..], p)
  {
    var g := Routes(plan, eval, open);
    TakeNode(plan, g, seeds, eval, open, queue, p);
    CoverStep(g, seeds, queue, queue[1..], p, p);
  }

  lemma SearchExpand(plan: ExecutionPlan, seeds: seq<string>, eval: string -> bool, open: string -> bool,
                     queue: seq<NodeSpec>, p: Progress)
    requires Indexed(plan) && Searching(plan, seeds, eval, open, queue, p) && |queue| > 0
    requires queue[0].IsGateway() && open(queue[0].id) && queue[0].id !in p.order
    requires TransitionOf(plan, queue[0].id, eval).Ok?
    ensures queue[0].id in plan.nodes
    ensures Searching(plan, seeds, eval, open, queue[1..] + TransitionOf(plan, queue[0].id, eval).value.targets,
                      p.(order := p.order + [queue[0].id]))
  {
    var g, v := Routes(plan, eval, open), queue[0].id;
    var targets := TransitionOf(plan, v, eval).value.targets;
    TakeNode(plan, g, seeds, eval, open, queue, p);
    AddExpanded(plan, g, seeds, eval, open, queue[1..], p, v);
    QueueTargets(plan, eval, open, seeds, queue[1..], p.(order := p.order + [v]), v);
    IdsJoined(queue[1..], targets);
    CoverStep(g, seeds, queue, queue[1..] + targets, p, p.(order := p.order + [v]));
  }

  lemma SearchFails(plan: ExecutionPlan, id: string, eval: string -> bool, open: string -> bool,
                    queue: seq<NodeSpec>, p: Progress)
    requires TransitionOf(plan, id, eval).Ok? && |queue| > 0
    requires Searching(plan, Ids(TransitionOf(plan, id, eval).value.targets), eval, open, queue, p)
    requires queue[0].IsGateway() && open(queue[0].id) && TransitionOf(plan, queue[0].id, eval).Err?
    ensures Fails(plan, id, eval, open)
  {
    var seeds := Ids(TransitionOf(plan, id, eval).value.targets);
    TakeNode(plan, Routes(plan, eval, open), seeds, eval, open, queue, p);
    assert Passes(plan, open, queue[0].id);
  }

  lemma SearchEnds(plan: ExecutionPlan, id: string, eval: string -> bool, open: string -> bool, d: Decision, p: Progress)
    requires TransitionOf(plan, id, eval).Ok?
    requires Searching(plan, Ids(TransitionOf(plan, id, eval).value.targets), eval, open, [], p)
    requires d.ready == p.ready && (d.blocked <==> p.shut != {})
    requires d.skipped == TransitionOf(plan, id, eval).value.skipped + SkipsOf(plan, eval, p.order)
    ensures Decides(plan, id, eval, open, d, p.order) && !Fails(plan, id, eval, open)
  {
    var g, seeds := Routes(plan, eval, open), Ids(TransitionOf(plan, id, eval).value.targets);
    forall v ensures v in Handled(p) <==> FromSeeds(g, seeds, v) {
      HandledExactly(plan, g, seeds, eval, open, p, v);
    }
    ReadyReached(plan, g, seeds, eval, open, p);
    ExpandedReached(plan, g, seeds, eval, open, p);
    ShutReached(plan, g, seeds, eval, open, p);
    NoFailure(plan, id, eval, open, p.order);
  }

  ghost predicate HandlesReached(g: Graph, seeds: seq<string>, p: Progress) {
    forall v {:trigger FromSeeds(g, seeds, v)} :: v in Handled(p) <==> FromSeeds(g, seeds, v)
  }

  lemma ReadyReached(plan: ExecutionPlan, g: Graph, seeds: seq<string>, eval: string -> bool, open: string -> bool,
                     p: Progress)
    requires Honest(plan, g, seeds, eval, open, [], p) && HandlesReached(g, seeds, p)
    ensures ReadyExactly(plan, g, seeds, p.ready)
  {
    ReadyDistinct(plan, p.ready);
    forall v ensures v in Ids(p.ready) <==> FromSeeds(g, seeds, v) && !IsGatewayIn(plan, v) {
      if v in Ids(p.ready) { assert v in Handled(p); }
    }
  }

  lemma ExpandedReached(plan: ExecutionPlan, g: Graph, seeds: seq<string>, eval: string -> bool, open: string -> bool,
                        p: Progress)
    requires Honest(plan, g, seeds, eval, open, [], p) && HandlesReached(g, seeds, p)
    ensures ExpandedExactly(plan, g, seeds, open, p.order)
  {
    forall v ensures v in p.order <==> FromSeeds(g, seeds, v) && Passes(plan, open, v) {
      if v in p.order { assert v in Handled(p); }
    }
  }

  lemma ShutReached(plan: ExecutionPlan, g: Graph, seeds: seq<string>, eval: string -> bool, open: string -> bool,
                    p: Progress)
    requires Honest(plan, g, seeds, eval, open, [], p) && HandlesReached(g, seeds, p)
    ensures BlockedExactly(plan, g, seeds, open, p.shut != {})
  {
    if p.shut != {} {
      var v :| v in p.shut;
      assert v in Handled(p);
    }
  }

  lemma ReadyDistinct(plan: ExecutionPlan, ready: seq<NodeSpec>)
    requires KnownNodes(plan, ready) && Distinct(Ids(ready))
    ensures forall i, j | 0 <= i < j < |ready| :: ready[i].id != ready[j].id
    ensures forall n | n in ready :: n.id in plan.nodes && plan.nodes[n.id] == n
  {
    forall i, j | 0 <= i < j < |ready| ensures ready[i].id != ready[j].id {
      assert Ids(ready)[i] != Ids(ready)[j];
    }
  }

  lemma NoFailure(plan: ExecutionPlan, id: string, eval: string -> bool, open: string -> bool, order: seq<string>)
    requires TransitionOf(plan, id, eval).Ok?
    requires ExpandedExactly(plan, Routes(plan, eval, open), Ids(TransitionOf(plan, id, eval).value.targets), open, order)
    requires forall v | v in order :: TransitionOf(plan, v, eval).Ok?
    ensures !Fails(plan, id, eval, open)
  {
  }

  lemma SkipsAppended(plan: ExecutionPlan, eval: string -> bool, first: seq<NodeSpec>, order: seq<string>, v: string)
    requires TransitionOf(plan, v, eval).Ok?
    ensures first + SkipsOf(plan, eval, order + [v]) ==
      first + SkipsOf(plan, eval, order) + TransitionOf(plan, v, eval).value.skipped
  {
    assert (order + [v])[..|order|] == order;
  }

  // ---------------------------------------------------------------- the search as a function

  /** Goes on from what is queued: ready nodes once each, shut joins, gateways already expanded, gateways to expand. */
  function Walk(plan: ExecutionPlan, eval: string -> bool, open: string -> bool, queue: seq<NodeSpec>, visited: set<string>,
                d: Decision): Result<Decision, FlowError>
    requires Indexed(plan) && KnownNodes(plan, queue)
    decreases plan.nodes.Keys - visited, |queue|
  {
    if queue == [] then Ok(d) else
    var n, rest := queue[0], queue[1..];
    if !n.IsGateway() then
      Walk(plan, eval, open, rest, visited, if n.id in Ids(d.ready) then d else d.(ready := d.ready + [n]))
    else if !open(n.id) then Walk(plan, eval, open, rest, visited, d.(blocked := true))
    else if n.id in visited then Walk(plan, eval, open, rest, visited, d)
    else
      match TransitionOf(plan, n.id, eval)
      case Err(e) => Err(e)
      case Ok(t) =>
        TargetsKnown(plan, n.id, eval);
        Walk(plan, eval, open, rest + t.targets, visited + {n.id}, d.(skipped := d.skipped + t.skipped))
  }

  /** The step out of a node. */
  function Resolution(plan: ExecutionPlan, id: string, eval: string -> bool, open: string -> bool): Result<Decision, FlowError>
    requires Indexed(plan)
  {
    match TransitionOf(plan, id, eval)
    case Err(e) => Err(e)
    case Ok(t) =>
      TargetsKnown(plan, id, eval);
      Walk(plan, eval, open, t.targets, {}, Decision([], t.skipped, false))
  }

  // ---------------------------------------------------------------- the order of the search

  /** What was listed is what was handled and then what is queued; whatever was handled and is no shut join became ready or
      was expanded, in that order. */
  ghost predicate Streams(plan: ExecutionPlan, eval: string -> bool, open: string -> bool, first: seq<NodeSpec>,
                          done: seq<NodeSpec>, queue: seq<NodeSpec>, p: Progress) {
    && first + TargetsOf(plan, eval, p.order) == done + queue
    && InOrderSeen(done, Ids(p.ready)) && InOrderSeen(done, p.order)
    && (forall x | x in Ids(p.ready) || x in p.order :: x in Ids(done))
    && (forall n | n in done :: Accounted(open, n, p))
  }

  predicate Accounted(open: string -> bool, n: NodeSpec, p: Progress) {
    if n.IsGateway() then open(n.id) ==> n.id in p.order else n.id in Ids(p.ready)
  }

  lemma SeenLonger(seen: seq<NodeSpec>, n: NodeSpec, ids: seq<string>)
    requires InOrderSeen(seen, ids)
    ensures InOrderSeen(seen + [n], ids)
  {
    forall i, j | 0 <= i < j < |ids| ensures SeenBefore(seen + [n], ids[i], ids[j]) {
      assert SeenBefore(seen, ids[i], ids[j]);
      var k :| 0 <= k < |seen| && seen[k].id == ids[i] && forall l | 0 <= l <= k :: seen[l].id != ids[j];
      assert (seen + [n])[k].id == ids[i] && forall l | 0 <= l <= k :: (seen + [n])[l] == seen[l];
    }
  }

  lemma SeenNext(seen: seq<NodeSpec>, n: NodeSpec, ids: seq<string>)
    requires InOrderSeen(seen, ids) && n.id !in Ids(seen) && forall x | x in ids :: x in Ids(seen)
    ensures InOrderSeen(seen + [n], ids + [n.id])
  {
    SeenLonger(seen, n, ids);
    forall i, j | 0 <= i < j < |ids + [n.id]| ensures SeenBefore(seen + [n], (ids + [n.id])[i], (ids + [n.id])[j]) {
      if j < |ids| {
        assert SeenBefore(seen + [n], ids[i], ids[j]);
      } else {
        assert ids[i] in Ids(seen);
        var k :| 0 <= k < |seen| && Ids(seen)[k] == ids[i];
        assert (seen + [n])[k].id == ids[i];
        forall l | 0 <= l <= k ensures (seen + [n])[l].id != n.id { assert Ids(seen)[l] in Ids(seen); }
      }
    }
  }

  lemma IdsNext(done: seq<NodeSpec>, queue: seq<NodeSpec>)
    requires queue != []
    ensures done + queue == done + [queue[0]] + queue[1..] && Ids(done + [queue[0]]) == Ids(done) + [queue[0].id]
  {
  }

  /** Handling a node that is accounted for. */
  lemma StreamSkips(plan: ExecutionPlan, eval: string -> bool, open: string -> bool, first: seq<NodeSpec>,
                    done: seq<NodeSpec>, queue: seq<NodeSpec>, p: Progress, p': Progress)
    requires Streams(plan, eval, open, first, done, queue, p) && queue != [] && Accounted(open, queue[0], p)
    requires p' == p.(shut := p'.shut)
    ensures Streams(plan, eval, open, first, done + [queue[0]], queue[1..], p')
  {
    IdsNext(done, queue);
    SeenLonger(done, queue[0], Ids(p.ready));
    SeenLonger(done, queue[0], p.order);
  }

  lemma StreamReady(plan: ExecutionPlan, eval: string -> bool, open: string -> bool, first: seq<NodeSpec>,
                    done: seq<NodeSpec>, queue: seq<NodeSpec>, p: Progress)
    requires Streams(plan, eval, open, first, done, queue, p) && KnownNodes(plan, done + queue)
    requires queue != [] && !queue[0].IsGateway() && queue[0].id !in Ids(p.ready)
    ensures Streams(plan, eval, open, first, done + [queue[0]], queue[1..], p.(ready := p.ready + [queue[0]]))
  {
    IdsNext(done, queue);
    NotHandled(plan, open, done, queue, p);
    assert Ids(p.ready + [queue[0]]) == Ids(p.ready) + [queue[0].id];
    SeenNext(done, queue[0], Ids(p.ready));
    SeenLonger(done, queue[0], p.order);
  }

  lemma NotHandled(plan: ExecutionPlan, open: string -> bool, done: seq<NodeSpec>, queue: seq<NodeSpec>, p: Progress)
    requires KnownNodes(plan, done + queue) && queue != [] && !Accounted(open, queue[0], p)
    requires forall n | n in done :: Accounted(open, n, p)
    ensures queue[0].id !in Ids(done)
  {
    assert (done + queue)[|done|] == queue[0];
    forall k | 0 <= k < |done| ensures done[k].id != queue[0].id { assert (done + queue)[k] == done[k]; }
  }

  lemma StreamExpands(plan: ExecutionPlan, eval: string -> bool, open: string -> bool, first: seq<NodeSpec>,
                      done: seq<NodeSpec>, queue: seq<NodeSpec>, p: Progress, targets: seq<NodeSpec>)
    requires Streams(plan, eval, open, first, done, queue, p) && KnownNodes(plan, done + queue)
    requires queue != [] && queue[0].IsGateway() && open(queue[0].id) && queue[0].id !in p.order
    requires TransitionOf(plan, queue[0].id, eval).Ok? && TransitionOf(plan, queue[0].id, eval).value.targets == targets
    ensures Streams(plan, eval, open, first, done + [queue[0]], queue[1..] + targets, p.(order := p.order + [queue[0].id]))
  {
    IdsNext(done, queue);
    NotHandled(plan, open, done, queue, p);
    TargetsAppended(plan, eval, first, p.order, queue[0].id, targets);
    TargetsMoved(done, queue, targets);
    SeenNext(done, queue[0], p.order);
    SeenLonger(done, queue[0], Ids(p.ready));
  }

  lemma TargetsMoved(done: seq<NodeSpec>, queue: seq<NodeSpec>, targets: seq<NodeSpec>)
    requires queue != []
    ensures done + [queue[0]] + (queue[1..] + targets) == done + queue + targets
  {
  }

  lemma TargetsAppended(plan: ExecutionPlan, eval: string -> bool, first: seq<NodeSpec>, order: seq<string>, v: string,
                        targets: seq<NodeSpec>)
    requires TransitionOf(plan, v, eval).Ok? && TransitionOf(plan, v, eval).value.targets == targets
    ensures first + TargetsOf(plan, eval, order + [v]) == first + TargetsOf(plan, eval, order) + targets
  {
    assert (order + [v])[..|order|] == order;
  }

  // ---------------------------------------------------------------- what the search decides

  /** Some order of expanding the gateways, breadth first, gives the decision. */
  ghost predicate DecidedInOrder(plan: ExecutionPlan, id: string, eval: string -> bool, open: string -> bool, d: Decision)
    requires TransitionOf(plan, id, eval).Ok?
  {
    exists order :: Decides(plan, id, eval, open, d, order)
      && BreadthFirst(plan, eval, TransitionOf(plan, id, eval).value.targets, d.ready, order)
  }

  ghost predicate Walking(plan: ExecutionPlan, id: string, eval: string -> bool, open: string -> bool, done: seq<NodeSpec>,
                          queue: seq<NodeSpec>, visited: set<string>, d: Decision, p: Progress)
    requires TransitionOf(plan, id, eval).Ok?
  {
    var first := TransitionOf(plan, id, eval).value;
    && Searching(plan, Ids(first.targets), eval, open, queue, p)
    && Streams(plan, eval, open, first.targets, done, queue, p) && KnownNodes(plan, done + queue)
    && (forall v :: v in visited <==> v in p.order)
    && d.ready == p.ready && (d.blocked <==> p.shut != {}) && d.skipped == first.skipped + SkipsOf(plan, eval, p.order)
  }

  lemma WalkEnds(plan: ExecutionPlan, id: string, eval: string -> bool, open: string -> bool, done: seq<NodeSpec>,
                 visited: set<string>, d: Decision, p: Progress)
    requires TransitionOf(plan, id, eval).Ok? && Walking(plan, id, eval, open, done, [], visited, d, p)
    ensures DecidedInOrder(plan, id, eval, open, d) && !Fails(plan, id, eval, open)
  {
    assert done + [] == done;
    SearchEnds(plan, id, eval, open, d, p);
    assert BreadthFirst(plan, eval, TransitionOf(plan, id, eval).value.targets, d.ready, p.order);
  }

  lemma WalkPasses(plan: ExecutionPlan, id: string, eval: string -> bool, open: string -> bool, done: seq<NodeSpec>,
                   queue: seq<NodeSpec>, visited: set<string>, d: Decision, p: Progress)
    requires Indexed(plan) && TransitionOf(plan, id, eval).Ok? && Walking(plan, id, eval, open, done, queue, visited, d, p)
    requires queue != [] && Accounted(open, queue[0], p)
    ensures queue[0].IsGateway() && !open(queue[0].id) ==>
      Walking(plan, id, eval, open, done + [queue[0]], queue[1..], visited, d.(blocked := true), p.(shut := p.shut + {queue[0].id}))
    ensures !queue[0].IsGateway() || open(queue[0].id) ==>
      Walking(plan, id, eval, open, done + [queue[0]], queue[1..], visited, d, p)
  {
    var seeds := Ids(TransitionOf(plan, id, eval).value.targets);
    IdsNext(done, queue);
    if !queue[0].IsGateway() {
      SearchReady(plan, seeds, eval, open, queue, p);
      StreamSkips(plan, eval, open, TransitionOf(plan, id, eval).value.targets, done, queue, p, p);
    } else if !open(queue[0].id) {
      SearchShut(plan, seeds, eval, open, queue, p);
      StreamSkips(plan, eval, open, TransitionOf(plan, id, eval).value.targets, done, queue, p, p.(shut := p.shut + {queue[0].id}));
    } else {
      SearchSeen(plan, seeds, eval, open, queue, p);
      StreamSkips(plan, eval, open, TransitionOf(plan, id, eval).value.targets, done, queue, p, p);
    }
  }

  lemma WalkReadies(plan: ExecutionPlan, id: string, eval: string -> bool, open: string -> bool, done: seq<NodeSpec>,
                    queue: seq<NodeSpec>, visited: set<string>, d: Decision, p: Progress)
    requires Indexed(plan) && TransitionOf(plan, id, eval).Ok? && Walking(plan, id, eval, open, done, queue, visited, d, p)
    requires queue != [] && !queue[0].IsGateway() && queue[0].id !in Ids(d.ready)
    ensures Walking(plan, id, eval, open, done + [queue[0]], queue[1..], visited, d.(ready := d.ready + [queue[0]]),
                    p.(ready := p.ready + [queue[0]]))
  {
    var targets := TransitionOf(plan, id, eval).value.targets;
    IdsNext(done, queue);
    SearchReady(plan, Ids(targets), eval, open, queue, p);
    StreamReady(plan, eval, open, targets, done, queue, p);
  }

  lemma WalkExpands(plan: ExecutionPlan, id: string, eval: string -> bool, open: string -> bool, done: seq<NodeSpec>,
                    queue: seq<NodeSpec>, visited: set<string>, d: Decision, p: Progress)
    requires Indexed(plan) && TransitionOf(plan, id, eval).Ok? && Walking(plan, id, eval, open, done, queue, visited, d, p)
    requires queue != [] && queue[0].IsGateway() && open(queue[0].id) && queue[0].id !in visited
    requires TransitionOf(plan, queue[0].id, eval).Ok?
    ensures var t := TransitionOf(plan, queue[0].id, eval).value;
      Walking(plan, id, eval, open, done + [queue[0]], queue[1..] + t.targets, visited + {queue[0].id},
              d.(skipped := d.skipped + t.skipped), p.(order := p.order + [queue[0].id]))
  {
    var first, t := TransitionOf(plan, id, eval).value, TransitionOf(plan, queue[0].id, eval).value;
    SearchExpand(plan, Ids(first.targets), eval, open, queue, p);
    SkipsAppended(plan, eval, first.skipped, p.order, queue[0].id);
    StreamExpands(plan, eval, open, first.targets, done, queue, p, t.targets);
    TargetsKnown(plan, queue[0].id, eval);
    KnownMoved(plan, done, queue, t.targets);
  }

  lemma KnownMoved(plan: ExecutionPlan, done: seq<NodeSpec>, queue: seq<NodeSpec>, targets: seq<NodeSpec>)
    requires KnownNodes(plan, done + queue) && KnownNodes(plan, targets) && queue != []
    ensures KnownNodes(plan, done + [queue[0]] + (queue[1..] + targets))
  {
    TargetsMoved(done, queue, targets);
  }

  /** The search decides the step, and fails exactly if a transition it needs is undefined. */
  lemma {:induction false} WalkDecides(plan: ExecutionPlan, id: string, eval: string -> bool, open: string -> bool,
                                       done: seq<NodeSpec>, queue: seq<NodeSpec>, visited: set<string>, d: Decision, p: Progress)
    requires Indexed(plan) && TransitionOf(plan, id, eval).Ok? && Walking(plan, id, eval, open, done, queue, visited, d, p)
    ensures var r := Walk(plan, eval, open, queue, visited, d);
      && (r.Err? <==> Fails(plan, id, eval, open))
      && (r.Ok? ==> DecidedInOrder(plan, id, eval, open, r.value))
    decreases plan.nodes.Keys - visited, |queue|
  {
    if queue == [] {
      WalkEnds(plan, id, eval, open, done, visited, d, p);
    } else if !queue[0].IsGateway() && queue[0].id !in Ids(d.ready) {
      WalkReadies(plan, id, eval, open, done, queue, visited, d, p);
      WalkDecides(plan, id, eval, open, done + [queue[0]], queue[1..], visited, d.(ready := d.ready + [queue[0]]),
                  p.(ready := p.ready + [queue[0]]));
    } else if queue[0].IsGateway() && !open(queue[0].id) {
      WalkPasses(plan, id, eval, open, done, queue, visited, d, p);
      WalkDecides(plan, id, eval, open, done + [queue[0]], queue[1..], visited, d.(blocked := true),
                  p.(shut := p.shut + {queue[0].id}));
    } else if !queue[0].IsGateway() || queue[0].id in visited {
      WalkPasses(plan, id, eval, open, done, queue, visited, d, p);
      WalkDecides(plan, id, eval, open, done + [queue[0]], queue[1..], visited, d, p);
    } else if TransitionOf(plan, queue[0].id, eval).Err? {
      SearchFails(plan, id, eval, open, queue, p);
    } else {
      WalkExpands(plan, id, eval, open, done, queue, visited, d, p);
      var t := TransitionOf(plan, queue[0].id, eval).value;
      WalkDecides(plan, id, eval, open, done + [queue[0]], queue[1..] + t.targets, visited + {queue[0].id},
                  d.(skipped := d.skipped + t.skipped), p.(order := p.order + [queue[0].id]));
    }
  }

  lemma WalkStarts(plan: ExecutionPlan, id: string, eval: string -> bool, open: string -> bool)
    requires Indexed(plan) && TransitionOf(plan, id, eval).Ok?
    ensures var first := TransitionOf(plan, id, eval).value;
      Walking(plan, id, eval, open, [], first.targets, {}, Decision([], first.skipped, false), Progress([], [], {}))
  {
    var first := TransitionOf(plan, id, eval).value;
    SearchStarts(plan, id, eval, open);
    TargetsKnown(plan, id, eval);
    assert [] + first.targets == first.targets;
  }

  /** The step out of a node is decided as it should be, and undefined exactly when it should be. */
  lemma ResolutionDecides(plan: ExecutionPlan, id: string, eval: string -> bool, open: string -> bool)
    requires Indexed(plan)
    ensures var r := Resolution(plan, id, eval, open);
      && (r.Err? <==> Fails(plan, id, eval, open))
      && (r.Ok? ==> TransitionOf(plan, id, eval).Ok? && DecidedInOrder(plan, id, eval, open, r.value))
  {
    var first := TransitionOf(plan, id, eval);
    if first.Ok? {
      WalkStarts(plan, id, eval, open);
      WalkDecides(plan, id, eval, open, [], first.value.targets, {}, Decision([], first.value.skipped, false), Progress([], [], {}));
    }
  }

  /** Follows the flow out of a node through open gateways; terminates on cyclic gateways as well. */
  method ResolveNextStep(plan: ExecutionPlan, id: string, eval: string -> bool, open: string -> bool)
    returns (r: Result<Decision, FlowError>)
    requires Indexed(plan)
    ensures r == Resolution(plan, id, eval, open)
    ensures r.Err? <==> Fails(plan, id, eval, open)
    ensures r.Ok? ==> TransitionOf(plan, id, eval).Ok? && DecidedInOrder(plan, id, eval, open, r.value)
  {
    ResolutionDecides(plan, id, eval, open);
    var first := CalculateTransition(plan, id, eval);
    if first.Err? {
      return Err(first.error);
    }
    TargetsKnown(plan, id, eval);
    var ready: seq<NodeSpec>, skipped, blocked := [], first.value.skipped, false;
    var queue, visited: set<string> := first.value.targets, {};
    while queue != []
      invariant KnownNodes(plan, queue)
      invariant Walk(plan, eval, open, queue, visited, Decision(ready, skipped, blocked)) == Resolution(plan, id, eval, open)
      decreases plan.nodes.Keys - visited, |queue|
    {
      var n := queue[0];
      if !n.IsGateway() {
        if n.id !in Ids(ready) {
          ready := ready + [n];
        }
        queue := queue[1..];
      } else if !open(n.id) {
        blocked := true;
        queue := queue[1..];
      } else if n.id in visited {
        queue := queue[1..];
      } else {
        var sub := CalculateTransition(plan, n.id, eval);
        if sub.Err? {
          return Err(sub.error);
        }
        TargetsKnown(plan, n.id, eval);
        visited := visited + {n.id};
        skipped := skipped + sub.value.skipped;
        queue := queue[1..] + sub.value.targets;
      }
    }
    r := Ok(Decision(ready, skipped, blocked));
  }
}
