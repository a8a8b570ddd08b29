/** How far the engine runs on through copies and finished workers, and where it never stops. */
module FlowDepth {
  import opened Prelude
  import opened Graphs
  import opened FlowPlan
  import opened FlowTransition
  import opened FlowStep
  import opened FlowTrace
  import opened FlowEffects

  /** Nodes the engine may leave in the same call that enters them. */
  predicate Passing(kind: NodeType) { kind.CarbonCopy? || kind.Automatic? }

  predicate RunsOn(plan: ExecutionPlan, id: string) {
    id in plan.nodes && (plan.nodes[id].IsGateway() || Passing(plan.nodes[id].kind))
  }

  function RunTargets(plan: ExecutionPlan, edges: seq<EdgeSpec>): (r: seq<string>)
    ensures forall w :: w in r <==> RunsOn(plan, w) && exists k :: 0 <= k < |edges| && edges[k].target == w
  {
    if edges == [] then [] else
    (if RunsOn(plan, edges[0].target) then [edges[0].target] else []) + RunTargets(plan, edges[1..])
  }

  /** From a node to the gateways, copies and automatic nodes its edges lead to. */
  function Onward(plan: ExecutionPlan): (g: Graph)
    ensures forall v :: Succ(g, v) == RunTargets(plan, Out(plan, v))
  {
    map v | v in plan.outEdges :: RunTargets(plan, plan.outEdges[v])
  }

  // ---------------------------------------------------------------- a depth that suffices

  /** No ring of gateways, copies and automatic nodes lies ahead, and `depth` exceeds what does. */
  ghost predicate Suffices(plan: ExecutionPlan, id: string, depth: nat) {
    Ends(Onward(plan), id) && |Ahead(Onward(plan), id)| < depth
  }

  ghost predicate NodeSuffices(plan: ExecutionPlan, n: NodeSpec, depth: nat) {
    Passing(n.kind) ==> Suffices(plan, n.id, depth)
  }

  ghost predicate Shallow(plan: ExecutionPlan, nodes: seq<NodeSpec>, depth: nat) {
    forall n | n in nodes :: NodeSuffices(plan, n, depth)
  }

  lemma TargetLeads(plan: ExecutionPlan, eval: string -> bool, v: string, w: string)
    requires Indexed(plan) && w in TargetIds(plan, eval, v)
    ensures exists k :: 0 <= k < |Out(plan, v)| && Out(plan, v)[k].target == w
  {
    var edges := Out(plan, v);
    var t := TransitionOf(plan, v, eval).value;
    var i :| 0 <= i < |t.targets| && t.targets[i].id == w;
    var seen := Considered(plan.nodes[v].kind, edges, eval);
    assert t.targets[i] in Pick(plan, seen, plan.nodes[v].kind, eval, true);
    var k :| 0 <= k < |seen| && plan.nodes[seen[k].target] == t.targets[i];
    assert edges[k] == seen[k];
  }

  lemma RouteHop(plan: ExecutionPlan, eval: string -> bool, open: string -> bool, v: string, w: string)
    requires Indexed(plan) && w in Succ(Routes(plan, eval, open), v)
    ensures RunsOn(plan, v) && (RunsOn(plan, w) ==> w in Succ(Onward(plan), v))
  {
    TargetLeads(plan, eval, v, w);
  }

  /** A route through gateways to a node that runs on runs on all the way. */
  lemma {:induction false} RouteRunsOn(plan: ExecutionPlan, eval: string -> bool, open: string -> bool, p: seq<string>)
    requires Indexed(plan) && IsPath(Routes(plan, eval, open), p) && RunsOn(plan, p[|p| - 1])
    ensures IsPath(Onward(plan), p) && RunsOn(plan, p[0])
  {
    if |p| > 1 {
      assert Hop(Routes(plan, eval, open), p, 0);
      TailPath(Routes(plan, eval, open), p);
      RouteRunsOn(plan, eval, open, p[1..]);
      RouteHop(plan, eval, open, p[0], p[1]);
      Prepended(Onward(plan), p[0], p[1..]);
      assert p == [p[0]] + p[1..];
    }
  }

  lemma EndsAlong(g: Graph, p: seq<string>)
    requires IsPath(g, p) && Ends(g, p[0])
    ensures Ends(g, p[|p| - 1]) && |Ahead(g, p[|p| - 1])| <= |Ahead(g, p[0])|
    decreases |p|
  {
    if |p| > 1 {
      assert Hop(g, p, 0);
      TailPath(g, p);
      AheadShrinks(g, p[0], p[1]);
      EndsAlong(g, p[1..]);
    }
  }

  lemma SeedSuffices(plan: ExecutionPlan, eval: string -> bool, open: string -> bool, id: string, p: seq<string>, depth: nat)
    requires Indexed(plan) && Suffices(plan, id, depth) && p != [] && p[0] in TargetIds(plan, eval, id)
    requires IsPath(Routes(plan, eval, open), p) && RunsOn(plan, p[|p| - 1])
    ensures depth > 0 && Suffices(plan, p[|p| - 1], depth - 1)
  {
    RouteRunsOn(plan, eval, open, p);
    TargetLeads(plan, eval, id, p[0]);
    AheadShrinks(Onward(plan), id, p[0]);
    EndsAlong(Onward(plan), p);
  }

  /** A step out of a node for which a depth suffices leads to nodes for which one less does. */
  lemma ReadyShallow(plan: ExecutionPlan, id: string, eval: string -> bool, open: string -> bool, d: Decision,
                     order: seq<string>, depth: nat)
    requires Indexed(plan) && TransitionOf(plan, id, eval).Ok? && Decides(plan, id, eval, open, d, order)
    requires Suffices(plan, id, depth)
    ensures depth > 0 && Shallow(plan, d.ready, depth - 1)
  {
    var g, seeds := Routes(plan, eval, open), Ids(TransitionOf(plan, id, eval).value.targets);
    forall n | n in d.ready && Passing(n.kind) ensures Suffices(plan, n.id, depth - 1) {
      var i :| 0 <= i < |d.ready| && d.ready[i] == n;
      assert Ids(d.ready)[i] == n.id && n.id in Ids(d.ready);
      assert FromSeeds(g, seeds, n.id);
      var s :| s in seeds && Reaches(g, s, n.id);
      var p :| Connects(g, p, s, n.id);
      SeedSuffices(plan, eval, open, id, p, depth);
    }
  }

  /** Without such a ring one depth suffices everywhere. */
  lemma AcyclicSuffices(plan: ExecutionPlan, id: string)
    requires Acyclic(Onward(plan))
    ensures Suffices(plan, id, |Vertices(Onward(plan))| + 1)
  {
    AcyclicEnds(Onward(plan), id);
    SubsetSize(Ahead(Onward(plan), id), Vertices(Onward(plan)));
  }

  // ---------------------------------------------------------------- copies that lead only to each other

  ghost predicate Answers(env: Environment, id: string) {
    forall variables {:trigger env.assignees(id, variables)} :: env.assignees(id, variables).Some?
  }

  /** Every way out of `id` is open and leads into `z` or to an end, at least one into `z`. */
  ghost predicate Into(plan: ExecutionPlan, z: set<string>, id: string) {
    && id in plan.nodes && !plan.nodes[id].IsGateway()
    && (forall e | e in Out(plan, id) :: e.rule.None? && e.target in plan.nodes && (e.target in z || plan.nodes[e.target].kind.End?))
    && exists e :: e in Out(plan, id) && e.target in z
  }

  /** Copies that all have receivers and lead only to each other and to ends. */
  ghost predicate Trap(plan: ExecutionPlan, env: Environment, z: set<string>) {
    forall v {:trigger Caught(plan, env, z, v)} | v in z :: Caught(plan, env, z, v)
  }

  ghost predicate Caught(plan: ExecutionPlan, env: Environment, z: set<string>, v: string) {
    v in plan.nodes && plan.nodes[v].kind.CarbonCopy? && Answers(env, v) && Into(plan, z, v)
  }

  ghost predicate Trapped(plan: ExecutionPlan, env: Environment, id: string) {
    exists z {:trigger Into(plan, z, id)} :: Trap(plan, env, z) && Into(plan, z, id)
  }

  ghost predicate InTrap(plan: ExecutionPlan, env: Environment, n: NodeSpec) {
    n.kind.CarbonCopy? && Answers(env, n.id) && Trapped(plan, env, n.id)
  }

  /** Nothing but copies of a trap and ends, with at least one copy. */
  ghost predicate TrapAhead(plan: ExecutionPlan, env: Environment, nodes: seq<NodeSpec>) {
    (forall n | n in nodes :: n.kind.End? || InTrap(plan, env, n)) && exists n :: n in nodes && InTrap(plan, env, n)
  }

  lemma TrapTransition(plan: ExecutionPlan, z: set<string>, id: string, eval: string -> bool)
    requires Indexed(plan) && Into(plan, z, id)
    ensures TransitionOf(plan, id, eval).Ok?
    ensures forall w :: w in TargetIds(plan, eval, id) <==> exists e :: e in Out(plan, id) && e.target == w
  {
    var edges, kind := Out(plan, id), plan.nodes[id].kind;
    assert Considered(kind, edges, eval) == edges;
    forall k | 0 <= k < |edges| ensures edges[k].target in plan.nodes && Matched(kind, edges[k], eval) { assert edges[k] in edges; }
    var targets := TransitionOf(plan, id, eval).value.targets;
    forall w ensures w in TargetIds(plan, eval, id) <==> exists e :: e in edges && e.target == w {
      if w in TargetIds(plan, eval, id) { TargetLeads(plan, eval, id, w); }
      if exists e :: e in edges && e.target == w {
        var k :| 0 <= k < |edges| && edges[k].target == w;
        assert plan.nodes[w] in targets;
        var i :| 0 <= i < |targets| && targets[i] == plan.nodes[w];
        assert Ids(targets)[i] == w;
      }
    }
  }

  /** From nodes that are no gateways the routing search goes no further. */
  lemma SeedsAlone(plan: ExecutionPlan, eval: string -> bool, open: string -> bool, seeds: seq<string>, v: string)
    requires forall s | s in seeds :: !IsGatewayIn(plan, s)
    ensures FromSeeds(Routes(plan, eval, open), seeds, v) <==> v in seeds
  {
    var g := Routes(plan, eval, open);
    if FromSeeds(g, seeds, v) {
      var s :| s in seeds && Reaches(g, s, v);
      DeadEndReachesSelf(g, s, v);
    }
    if v in seeds { SeedReached(g, seeds, v); }
  }

  lemma TrapMember(plan: ExecutionPlan, env: Environment, z: set<string>, v: string)
    requires Trap(plan, env, z) && v in z && Indexed(plan)
    ensures v in plan.nodes && plan.nodes[v].id == v && InTrap(plan, env, plan.nodes[v])
  {
    assert Caught(plan, env, z, v);
  }

  lemma TrapTargets(plan: ExecutionPlan, z: set<string>, id: string, eval: string -> bool, w: string)
    requires Indexed(plan) && Into(plan, z, id) && w in TargetIds(plan, eval, id)
    ensures w in plan.nodes && plan.nodes[w].id == w && (w in z || plan.nodes[w].kind.End?)
  {
    TrapTransition(plan, z, id, eval);
    var e :| e in Out(plan, id) && e.target == w;
  }

  lemma TrapInto(plan: ExecutionPlan, env: Environment, z: set<string>, id: string, eval: string -> bool, w: string)
    requires Indexed(plan) && Trap(plan, env, z) && Into(plan, z, id) && w in TargetIds(plan, eval, id)
    ensures w in plan.nodes && plan.nodes[w].id == w && (plan.nodes[w].kind.End? || InTrap(plan, env, plan.nodes[w]))
  {
    TrapTargets(plan, z, id, eval, w);
    if w in z { TrapMember(plan, env, z, w); }
  }

  /** The ready nodes are exactly the ones the edges out of `id` lead to. */
  lemma TrapSeeds(plan: ExecutionPlan, env: Environment, z: set<string>, id: string, eval: string -> bool,
                  open: string -> bool, v: string)
    requires Indexed(plan) && Trap(plan, env, z) && Into(plan, z, id)
    ensures FromSeeds(Routes(plan, eval, open), TargetIds(plan, eval, id), v) <==> v in TargetIds(plan, eval, id)
    ensures v in TargetIds(plan, eval, id) ==> !IsGatewayIn(plan, v)
  {
    var seeds := TargetIds(plan, eval, id);
    forall s | s in seeds ensures !IsGatewayIn(plan, s) { TrapInto(plan, env, z, id, eval, s); }
    SeedsAlone(plan, eval, open, seeds, v);
  }

  lemma TrapHeld(plan: ExecutionPlan, env: Environment, z: set<string>, id: string, eval: string -> bool, ready: seq<NodeSpec>)
    requires Indexed(plan) && Trap(plan, env, z) && Into(plan, z, id)
    requires forall v | v in TargetIds(plan, eval, id) :: v in Ids(ready)
    requires forall n | n in ready :: n.id in plan.nodes && plan.nodes[n.id] == n
    ensures exists n :: n in ready && InTrap(plan, env, n)
  {
    TrapTransition(plan, z, id, eval);
    var e :| e in Out(plan, id) && e.target in z;
    assert e.target in TargetIds(plan, eval, id);
    var i :| 0 <= i < |ready| && Ids(ready)[i] == e.target;
    TrapMember(plan, env, z, e.target);
    assert ready[i] in ready;
  }

  lemma TrapDefined(plan: ExecutionPlan, env: Environment, id: string, eval: string -> bool, open: string -> bool)
    requires Indexed(plan) && Trapped(plan, env, id)
    ensures !Fails(plan, id, eval, open)
  {
    var z :| Trap(plan, env, z) && Into(plan, z, id);
    TrapTransition(plan, z, id, eval);
    forall v ensures !(FromSeeds(Routes(plan, eval, open), TargetIds(plan, eval, id), v) && Passes(plan, open, v)) {
      TrapSeeds(plan, env, z, id, eval, open, v);
    }
  }

  lemma NotBlocked(plan: ExecutionPlan, env: Environment, z: set<string>, id: string, eval: string -> bool,
                   open: string -> bool, blocked: bool)
    requires Indexed(plan) && Trap(plan, env, z) && Into(plan, z, id)
    requires BlockedExactly(plan, Routes(plan, eval, open), TargetIds(plan, eval, id), open, blocked)
    ensures !blocked
  {
    if blocked {
      var v :| FromSeeds(Routes(plan, eval, open), TargetIds(plan, eval, id), v) && IsGatewayIn(plan, v) && !open(v);
      TrapSeeds(plan, env, z, id, eval, open, v);
    }
  }

  lemma ReadyAhead(plan: ExecutionPlan, env: Environment, z: set<string>, id: string, eval: string -> bool,
                   open: string -> bool, ready: seq<NodeSpec>)
    requires Indexed(plan) && Trap(plan, env, z) && Into(plan, z, id)
    requires ReadyExactly(plan, Routes(plan, eval, open), TargetIds(plan, eval, id), ready)
    ensures TrapAhead(plan, env, ready)
  {
    var g, seeds := Routes(plan, eval, open), TargetIds(plan, eval, id);
    forall n | n in ready ensures n.kind.End? || InTrap(plan, env, n) {
      var i :| 0 <= i < |ready| && ready[i] == n;
      assert Ids(ready)[i] == n.id && FromSeeds(g, seeds, n.id);
      TrapSeeds(plan, env, z, id, eval, open, n.id);
      TrapInto(plan, env, z, id, eval, n.id);
    }
    forall v | v in seeds ensures v in Ids(ready) {
      TrapSeeds(plan, env, z, id, eval, open, v);
      assert FromSeeds(g, seeds, v);
    }
    TrapHeld(plan, env, z, id, eval, ready);
  }

  /** A step into a trap leads to its copies and to ends alone. */
  lemma TrapDecided(plan: ExecutionPlan, env: Environment, id: string, eval: string -> bool, open: string -> bool,
                    d: Decision, order: seq<string>)
    requires Indexed(plan) && Trapped(plan, env, id) && TransitionOf(plan, id, eval).Ok? && Decides(plan, id, eval, open, d, order)
    ensures !d.blocked && TrapAhead(plan, env, d.ready)
  {
    var z :| Trap(plan, env, z) && Into(plan, z, id);
    assert TargetIds(plan, eval, id) == Ids(TransitionOf(plan, id, eval).value.targets);
    NotBlocked(plan, env, z, id, eval, open, d.blocked);
    ReadyAhead(plan, env, z, id, eval, open, d.ready);
  }

  ghost predicate EndsUpTo(nodes: seq<NodeSpec>, k: nat) { forall j | 0 <= j < k && j < |nodes| :: nodes[j].kind.End? }

  lemma TrapNext(plan: ExecutionPlan, env: Environment, nodes: seq<NodeSpec>, k: nat)
    requires k < |nodes|
    ensures TrapAhead(plan, env, nodes) ==> nodes[k].kind.End? || InTrap(plan, env, nodes[k])
  {
    assert nodes[k] in nodes;
  }

  /** Going through such nodes one comes to a copy. */
  lemma TrapEnds(plan: ExecutionPlan, env: Environment, nodes: seq<NodeSpec>)
    ensures TrapAhead(plan, env, nodes) ==> !EndsUpTo(nodes, |nodes|)
  {
    if TrapAhead(plan, env, nodes) {
      var n :| n in nodes && InTrap(plan, env, n);
      var j :| 0 <= j < |nodes| && nodes[j] == n;
    }
  }

  // ---------------------------------------------------------------- validation admits rings of copies

  /** Start s, copies c and d leading to each other, end e behind d. */
  const LOOP := Definition(
    "k",
    [NodeSpec("s", Start, AllPass), NodeSpec("c", CarbonCopy, AllPass), NodeSpec("d", CarbonCopy, AllPass),
     NodeSpec("e", End, AllPass)],
    [Link("s", "c"), Link("c", "d"), Link("d", "c"), Link("d", "e")])

  lemma LoopIds()
    ensures LOOP.nodes[0].id == "s" && LOOP.nodes[1].id == "c" && LOOP.nodes[2].id == "d" && LOOP.nodes[3].id == "e"
    ensures |LOOP.nodes| == 4 && DistinctNodes(LOOP.nodes)
  {
    assert "s"[0] == 's' && "c"[0] == 'c' && "d"[0] == 'd' && "e"[0] == 'e';
  }

  lemma LoopEdges()
    ensures LOOP.edges[0] == Link("s", "c") && LOOP.edges[1] == Link("c", "d") && LOOP.edges[2] == Link("d", "c")
    ensures LOOP.edges[3] == Link("d", "e") && |LOOP.edges| == 4
  {
  }

  lemma {:induction false} LoopStarts(i: nat)
    requires 1 <= i <= 4
    ensures CountStarts(LOOP.nodes[..i]) == 1
  {
    var n := LOOP.nodes[..i];
    assert n[..i - 1] == LOOP.nodes[..i - 1];
    if i > 1 { LoopStarts(i - 1); }
  }

  lemma LoopEdge(k: nat)
    requires k < 4
    ensures EdgeSound(LOOP, LOOP.edges[k])
  {
    LoopIds();
    LoopEdges();
    assert Declared(LOOP, "s") && Declared(LOOP, "c") && Declared(LOOP, "d") && Declared(LOOP, "e");
  }

  lemma LoopDegree(k: nat)
    requires k < 4
    ensures DegreesSound(LOOP, LOOP.nodes[k])
  {
    LoopIds();
    LoopEdges();
    if k == 0 { assert Left(LOOP, "s"); }
    if k == 3 { assert Entered(LOOP, "e"); }
  }

  lemma LoopNodes()
    ensures DistinctNodes(LOOP.nodes) && forall k | 0 <= k < |LOOP.nodes| :: LOOP.nodes[k].id != ""
    ensures CountStarts(LOOP.nodes) == 1 && exists k :: 0 <= k < |LOOP.nodes| && LOOP.nodes[k].kind.End?
  {
    LoopIds();
    LoopStarts(4);
    assert LOOP.nodes[..4] == LOOP.nodes && LOOP.nodes[3].kind.End?;
  }

  lemma LoopHasNoLink(v: string, w: string)
    ensures !GatewayLink(LOOP, v, w)
  {
    forall k | 0 <= k < |LOOP.nodes| ensures !LOOP.nodes[k].IsGateway() {}
  }

  lemma LoopHasNoRing(p: seq<string>, k: nat)
    requires k + 1 < |p|
    ensures !GatewayRing(LOOP, p)
  {
    LoopHasNoLink(p[k], p[k + 1]);
  }

  lemma LoopHasNoGateway()
    ensures NoGatewayRing(LOOP)
  {
    forall p ensures !GatewayRing(LOOP, p) {
      if |p| > 1 { LoopHasNoRing(p, 0); }
    }
  }

  lemma LoopIsValid()
    ensures ValidDefinition(LOOP) && NoGatewayRing(LOOP)
  {
    LoopNodes();
    LoopHasNoGateway();
    forall k | 0 <= k < |LOOP.edges| ensures EdgeSound(LOOP, LOOP.edges[k]) { LoopEdge(k); }
    forall k | 0 <= k < |LOOP.nodes| ensures DegreesSound(LOOP, LOOP.nodes[k]) { LoopDegree(k); }
  }

  lemma LoopNode(plan: ExecutionPlan, parse: string -> Option<string>, k: nat)
    requires Compiles(plan, LOOP, parse) && k < 4
    ensures LOOP.nodes[k].id in plan.nodes && plan.nodes[LOOP.nodes[k].id] == LOOP.nodes[k]
  {
    LoopIds();
    assert Declared(LOOP, LOOP.nodes[k].id);
    var i :| 0 <= i < |LOOP.nodes| && LOOP.nodes[i] == plan.nodes[LOOP.nodes[k].id];
  }

  lemma LoopRuleless(parse: string -> Option<string>, k: nat)
    requires k < 4
    ensures Normalized(LOOP.edges[k], parse) == LOOP.edges[k] && LOOP.edges[k].rule.None?
  {
    LoopEdges();
  }

  /** Every way out of a node of the loop is one of the edges drawn, without a rule. */
  lemma LoopWayOut(plan: ExecutionPlan, parse: string -> Option<string>, id: string, e: EdgeSpec) returns (k: nat)
    requires Compiles(plan, LOOP, parse) && e in Out(plan, id)
    ensures k < 4 && e == LOOP.edges[k] && e.source == id
  {
    LeavingExact(LOOP.edges, id, parse, e);
    k :| k < |LOOP.edges| && LOOP.edges[k].source == id && e == Normalized(LOOP.edges[k], parse);
    LoopRuleless(parse, k);
  }

  lemma LoopHasWay(plan: ExecutionPlan, parse: string -> Option<string>, k: nat)
    requires Compiles(plan, LOOP, parse) && k < 4
    ensures LOOP.edges[k] in Out(plan, LOOP.edges[k].source)
  {
    LoopRuleless(parse, k);
    LeavingExact(LOOP.edges, LOOP.edges[k].source, parse, LOOP.edges[k]);
  }

  const COPIES: set<string> := {"c", "d"}

  lemma LoopTarget(plan: ExecutionPlan, parse: string -> Option<string>, id: string, e: EdgeSpec)
    requires Compiles(plan, LOOP, parse) && e in Out(plan, id)
    ensures e.rule.None? && e.target in plan.nodes && (e.target in COPIES || plan.nodes[e.target].kind.End?)
  {
    LoopIds();
    LoopEdges();
    var j := LoopWayOut(plan, parse, id, e);
    LoopRuleless(parse, j);
    LoopNode(plan, parse, if j == 3 then 3 else if j == 1 then 2 else 1);
  }

  lemma LoopInto(plan: ExecutionPlan, parse: string -> Option<string>, k: nat)
    requires Compiles(plan, LOOP, parse) && k < 3
    ensures Into(plan, COPIES, LOOP.nodes[k].id)
  {
    LoopIds();
    LoopEdges();
    LoopNode(plan, parse, k);
    var id := LOOP.nodes[k].id;
    forall e | e in Out(plan, id)
      ensures e.rule.None? && e.target in plan.nodes && (e.target in COPIES || plan.nodes[e.target].kind.End?)
    {
      LoopTarget(plan, parse, id, e);
    }
    LoopHasWay(plan, parse, k);
    assert LOOP.edges[k].target in COPIES;
  }

  lemma LoopCaught(plan: ExecutionPlan, env: Environment, parse: string -> Option<string>, v: string)
    requires Compiles(plan, LOOP, parse) && Answers(env, "c") && Answers(env, "d") && v in COPIES
    ensures Caught(plan, env, COPIES, v)
  {
    LoopIds();
    var k := if v == "c" then 1 else 2;
    LoopNode(plan, parse, k);
    LoopInto(plan, parse, k);
  }

  lemma LoopTraps(plan: ExecutionPlan, env: Environment, z: set<string>, id: string)
    requires (forall v | v in z :: Caught(plan, env, z, v)) && Into(plan, z, id)
    ensures Trapped(plan, env, id)
  {
    assert Trap(plan, env, z);
  }

  lemma LoopStart(plan: ExecutionPlan, parse: string -> Option<string>)
    requires Compiles(plan, LOOP, parse)
    ensures plan.start.Some? && plan.start.value == LOOP.nodes[0]
  {
    LoopIds();
    assert LOOP.nodes[0].kind.Start?;
  }

  lemma LoopTrapped(plan: ExecutionPlan, env: Environment, parse: string -> Option<string>)
    requires Compiles(plan, LOOP, parse) && Answers(env, "c") && Answers(env, "d")
    ensures Trapped(plan, env, LOOP.nodes[0].id)
  {
    forall v | v in COPIES ensures Caught(plan, env, COPIES, v) { LoopCaught(plan, env, parse, v); }
    LoopInto(plan, parse, 0);
    LoopTraps(plan, env, COPIES, LOOP.nodes[0].id);
  }

  /** A valid definition without gateway ring whose start leads into a ring of copies. */
  lemma ValidationAdmitsCopyRings(plan: ExecutionPlan, env: Environment, parse: string -> Option<string>)
    requires Compiles(plan, LOOP, parse) && Answers(env, "c") && Answers(env, "d")
    ensures ValidDefinition(LOOP) && NoGatewayRing(LOOP)
    ensures plan.start.Some? && plan.start.value.id != "" && Trapped(plan, env, plan.start.value.id)
  {
    LoopIsValid();
    LoopStart(plan, parse);
    LoopTrapped(plan, env, parse);
  }
}
