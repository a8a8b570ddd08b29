/** Canvases drawn as one line, and an accepted one whose proxy names collide: what is drawn of it goes round. */
module CanvasCollision {
  import opened Prelude
  import opened Graphs
  import opened CanvasModel
  import opened CanvasCycles
  import opened CanvasScan
  import opened CanvasRules
  import opened CanvasValidator
  import opened EffectiveGraph
  import opened CanvasConverter
  import opened CanvasNames
  import opened CanvasRoundTrip
  import opened GatewayPaths
  import opened PathHighlight

  // ---------------------------------------------------------------- a canvas that is one line

  /** The nodes stand in `order`, each leading to the next, from the start node to the end node. */
  ghost predicate Straight(ctx: Context, order: seq<string>) {
    && |order| > 1 && Distinct(order) && (forall v :: v in ctx.nodes <==> v in order)
    && (forall v | v !in order :: Targets(ctx, v) == [] && Prevs(ctx, v) == [])
    && (forall i | 0 <= i < |order| :: Placed(ctx, order, i))
  }

  ghost predicate Placed(ctx: Context, order: seq<string>, i: nat)
    requires i < |order|
  {
    && Targets(ctx, order[i]) == (if i + 1 < |order| then [order[i + 1]] else [])
    && Prevs(ctx, order[i]) == (if i > 0 then [order[i - 1]] else [])
    && (KindOf(ctx, order[i]).StartNode? <==> i == 0) && (KindOf(ctx, order[i]).EndNode? <==> i == |order| - 1)
    && !KindOf(ctx, order[i]).Unsupported? && !KindOf(ctx, order[i]).Selective?
  }

  lemma LineAcyclic(ctx: Context, order: seq<string>)
    requires Straight(ctx, order)
    ensures Acyclic(ForwardGraph(ctx)) && Endpoints(ctx) && NoSelfLoops(ctx)
  {
    forall i, w | 0 <= i < |order| && w in Succ(ForwardGraph(ctx), order[i]) ensures w in order[i + 1..] {
      assert Placed(ctx, order, i);
      assert order[i + 1..][0] == order[i + 1];
    }
    OrderedIsAcyclic(ForwardGraph(ctx), order);
    forall u, v | v in Targets(ctx, u) ensures u in ctx.nodes && v in ctx.nodes && u != v {
      var i :| 0 <= i < |order| && order[i] == u;
      assert Placed(ctx, order, i);
    }
  }

  lemma LineBounded(ctx: Context, order: seq<string>)
    requires Straight(ctx, order)
    ensures Bounded(ctx) && Supported(ctx) && IsStart(ctx, order[0]) && IsEnd(ctx, order[|order| - 1])
  {
    forall v | v in ctx.nodes ensures exists i :: 0 <= i < |order| && order[i] == v && Placed(ctx, order, i) {
      var i :| 0 <= i < |order| && order[i] == v;
      assert Placed(ctx, order, i);
    }
    assert Placed(ctx, order, 0) && Placed(ctx, order, |order| - 1);
    assert order[0] in ctx.nodes && order[|order| - 1] in ctx.nodes;
    assert IsStart(ctx, order[0]) && IsEnd(ctx, order[|order| - 1]);
    assert |OutEdges(ctx, order[|order| - 1])| == |Targets(ctx, order[|order| - 1])|;
  }

  lemma LineIsPath(ctx: Context, order: seq<string>)
    requires Straight(ctx, order)
    ensures IsPath(ForwardGraph(ctx), order)
  {
    forall k: nat | k + 1 < |order| ensures Hop(ForwardGraph(ctx), order, k) {
      assert Placed(ctx, order, k);
      assert [order[k + 1]][0] == order[k + 1];
    }
  }

  lemma LineBetween(ctx: Context, order: seq<string>, i: nat)
    requires Straight(ctx, order) && i < |order|
    ensures Reaches(ForwardGraph(ctx), order[0], order[i]) && Reaches(ForwardGraph(ctx), order[i], order[|order| - 1])
  {
    var g := ForwardGraph(ctx);
    LineIsPath(ctx, order);
    SubPath(g, order, 0, i + 1);
    assert Connects(g, order[0..i + 1], order[0], order[i]);
    SubPath(g, order, i, |order|);
    assert Connects(g, order[i..|order|], order[i], order[|order| - 1]);
  }

  lemma LineConnected(ctx: Context, order: seq<string>)
    requires Straight(ctx, order)
    ensures Connected(ctx)
  {
    LineBounded(ctx, order);
    forall v | v in ctx.nodes ensures FromStart(ctx, v) && ReachesAnEnd(ctx, v) {
      var i :| 0 <= i < |order| && order[i] == v;
      LineBetween(ctx, order, i);
    }
  }

  lemma LineNodeSound(ctx: Context, order: seq<string>, id: string)
    requires Straight(ctx, order) && id in ctx.nodes
    ensures DeadlockFree(ctx, id) && ForkPaired(ctx, id) && SelectiveSplits(ctx, id) && SelectiveWide(ctx, id)
    ensures RulesGiven(ctx, id) && RulesDiffer(ctx, id)
  {
    var i :| 0 <= i < |order| && order[i] == id;
    assert Placed(ctx, order, i);
    assert |OutEdges(ctx, id)| == |Targets(ctx, id)| <= 1;
    if i > 0 { assert Placed(ctx, order, i - 1); }
  }

  /** A straight line of supported nodes without selective gateways is always accepted. */
  lemma LineAccepted(ctx: Context, order: seq<string>)
    requires Straight(ctx, order)
    ensures Accepted(ctx)
  {
    LineAcyclic(ctx, order);
    LineBounded(ctx, order);
    LineConnected(ctx, order);
    forall id | id in ctx.nodes
      ensures DeadlockFree(ctx, id) && ForkPaired(ctx, id) && SelectiveSplits(ctx, id) && SelectiveWide(ctx, id)
      ensures RulesGiven(ctx, id) && RulesDiffer(ctx, id)
    {
      LineNodeSound(ctx, order, id);
    }
  }

  // ---------------------------------------------------------------- names that are safe

  /** Ids without underscores give every proxy a name of its own. */
  lemma PlainIdsAreFresh(ctx: Context)
    requires Endpoints(ctx) && forall id | id in ctx.nodes :: '_' !in id
    ensures FreshNames(ctx)
  {
    forall s, t | ProxyEdge(ctx, s, t) ensures ProxyId(s, t) !in ctx.nodes {
      assert ProxyId(s, t)[5] == '_';
    }
    forall s, t, u, v | ProxyEdge(ctx, s, t) && ProxyEdge(ctx, u, v) && ProxyId(s, t) == ProxyId(u, v)
      ensures s == u && t == v
    {
      SourceIsNode(ctx, s, t);
      SourceIsNode(ctx, u, v);
      assert ProxyId(s, t)[6..] == s + "_" + t && ProxyId(u, v)[6..] == u + "_" + v;
      SplitAt('_', s, t, u, v);
    }
  }

  // ---------------------------------------------------------------- names that collide

  /** A start, a condition, three parallel gateways and an end in one line, the second parallel gateway drawn first, and
      its proxy to the third named like the proxy from the condition to the first. */
  ghost predicate Colliding(ctx: Context, order: seq<string>, nodes: seq<Node>) {
    && |order| == |nodes| == 6 && Straight(ctx, order) && DrawnOnce(ctx, nodes) && nodes[0].id == order[3]
    && Kinds(ctx, order) && ShortIds(ctx)
    && ProxyId(order[1], order[2]) == ProxyId(order[3], order[4])
  }

  ghost predicate Kinds(ctx: Context, order: seq<string>)
    requires |order| == 6
  {
    && KindOf(ctx, order[0]).StartNode? && KindOf(ctx, order[1]).Condition? && KindOf(ctx, order[2]).Parallel?
    && KindOf(ctx, order[3]).Parallel? && KindOf(ctx, order[4]).Parallel? && KindOf(ctx, order[5]).EndNode?
  }

  ghost predicate ShortIds(ctx: Context) {
    forall id | id in ctx.nodes :: |id| < 7 && ctx.nodes[id].id == id
  }

  lemma LineWellBuilt(ctx: Context, order: seq<string>)
    requires Straight(ctx, order)
    ensures forall u, v :: Balanced(ctx, u, v)
  {
    forall u, v ensures Balanced(ctx, u, v) {
      if u in order {
        var i :| 0 <= i < |order| && order[i] == u;
        assert Placed(ctx, order, i);
      }
      if v in order {
        var j :| 0 <= j < |order| && order[j] == v;
        assert Placed(ctx, order, j);
      }
    }
  }

  ghost predicate Plain(kind: NodeKind) { !kind.User? && !kind.Automation? && !kind.Unsupported? }

  lemma KindsPlain(ctx: Context, order: seq<string>, i: nat)
    requires |order| == 6 && Kinds(ctx, order) && i < 6
    ensures Plain(KindOf(ctx, order[i]))
  {
  }

  lemma CollisionNode(ctx: Context, order: seq<string>, nodes: seq<Node>, v: string)
    requires Colliding(ctx, order, nodes) && v in ctx.nodes
    ensures Plain(ctx.nodes[v].kind)
  {
    var i :| 0 <= i < |order| && order[i] == v;
    KindsPlain(ctx, order, i);
  }

  lemma PlainNodesConvert(ctx: Context, nodes: seq<Node>)
    requires DrawnOnce(ctx, nodes) && forall v | v in ctx.nodes :: Plain(ctx.nodes[v].kind)
    ensures Converted(ctx, nodes).Ok? && NoSystemApprover(ctx)
  {
    forall k | 0 <= k < |nodes| ensures Refusal(ctx, nodes[k]).None? {
      assert nodes[k].id in ctx.nodes && ctx.nodes[nodes[k].id] == nodes[k];
    }
    ConversionFailsExactly(ctx, nodes);
  }

  lemma CollisionConverts(ctx: Context, order: seq<string>, nodes: seq<Node>)
    requires Colliding(ctx, order, nodes)
    ensures Drawing(ctx, nodes) && Accepted(ctx) && NoSystemApprover(ctx)
  {
    LineAccepted(ctx, order);
    LineWellBuilt(ctx, order);
    forall v | v in ctx.nodes ensures Plain(ctx.nodes[v].kind) { CollisionNode(ctx, order, nodes, v); }
    PlainNodesConvert(ctx, nodes);
  }

  lemma NamesAreLong(pairs: seq<(string, string)>, name: string)
    ensures Named(pairs, name) ==> |name| >= 7
  {
    forall q | q in pairs ensures |ProxyId(q.0, q.1)| >= 7 {}
  }

  lemma ShortIdsKept(ctx: Context, order: seq<string>, nodes: seq<Node>)
    requires Colliding(ctx, order, nodes)
    ensures IdsKept(ctx, nodes)
  {
    forall k | 0 <= k < |nodes| ensures KeepsId(ctx, nodes, k) {
      assert nodes[k].id in ctx.nodes;
      NamesAreLong(AllAsked(ctx, nodes), nodes[k].id);
    }
  }

  /** A parallel gateway with one edge out, to a gateway, and one in, from no condition, asks for one proxy. */
  lemma AsksAhead(ctx: Context, n: Node, s: string, t: string)
    requires n.kind.Parallel? && Targets(ctx, n.id) == [t] && KindOf(ctx, t).Splitting()
    requires Prevs(ctx, n.id) == [s] && !KindOf(ctx, s).Condition?
    ensures ProxyPairs(ctx, n) == [(n.id, t)]
  {
    var edges, prevs := OutEdges(ctx, n.id), Prevs(ctx, n.id);
    assert |edges| == |Targets(ctx, n.id)| == 1 && edges[0].target == Targets(ctx, n.id)[0];
    assert edges[..0] == [] && prevs[..0] == [];
    assert TargetPairs(ctx, n.id, edges[..0]) == [] && SourcePairs(ctx, n.id, prevs[..0]) == [];
  }

  lemma AskedFirst(ctx: Context, nodes: seq<Node>, s: string, t: string)
    requires |nodes| > 0 && ProxyPairs(ctx, nodes[0]) == [(s, t)]
    ensures Named(AllAsked(ctx, nodes), ProxyId(s, t)) && First(AllAsked(ctx, nodes), ProxyId(s, t)) == (s, t)
  {
    assert Asked(ctx, nodes, 1) == [] + [(s, t)];
    NamedAppended([], (s, t), ProxyId(s, t));
    StaysNamed(ctx, nodes, 1, |nodes|, ProxyId(s, t));
  }

  /** What every node of the line is like. */
  lemma Spot(ctx: Context, order: seq<string>, nodes: seq<Node>, i: nat)
    requires Colliding(ctx, order, nodes) && i < 6
    ensures Placed(ctx, order, i) && order[i] in ctx.nodes && ctx.nodes[order[i]].id == order[i]
  {
    assert order[i] in order;
  }

  /** Condition `k` before gateway `c` before gateway `a`, the name of the proxy from `k` to `c` leading back to `a`. */
  ghost predicate Knot(ctx: Context, nodes: seq<Node>, k: string, c: string, a: string) {
    && c in ctx.nodes && ctx.nodes[c].id == c && ctx.nodes[c].kind.Parallel? && Prevs(ctx, c) == [k]
    && a in ctx.nodes && ctx.nodes[a].id == a && ctx.nodes[a].kind.Parallel? && Prevs(ctx, a) == [c]
    && KindOf(ctx, k).Condition? && BackTo(ctx, nodes, ProxyId(k, c)) == a
  }

  lemma CollisionKnot(ctx: Context, order: seq<string>, nodes: seq<Node>)
    requires Colliding(ctx, order, nodes)
    ensures Knot(ctx, nodes, order[1], order[2], order[3])
  {
    Spot(ctx, order, nodes, 2);
    Spot(ctx, order, nodes, 3);
    assert nodes[0].id in ctx.nodes && ctx.nodes[nodes[0].id] == nodes[0];
    AsksAhead(ctx, nodes[0], order[2], order[4]);
    AskedFirst(ctx, nodes, order[3], order[4]);
    assert |ProxyId(order[1], order[2])| >= 7;
  }

  lemma FedByOne(ctx: Context, nodes: seq<Node>, u: string, v: string, s: string)
    requires Standing(ctx, nodes) && Bounded(ctx) && v in ctx.nodes && Prevs(ctx, v) == [s]
    ensures EffectiveEdge(ProcessOf(ctx, nodes), u, v) <==> u == Origin(ctx, nodes, s, v)
  {
    assert s in Prevs(ctx, v);
    FedExactly(ctx, nodes, u, v);
  }

  /** What feeds the two gateways once the proxies are left out. */
  lemma Rerouted(ctx: Context, nodes: seq<Node>, k: string, c: string, a: string, u: string)
    requires Knot(ctx, nodes, k, c, a) && Standing(ctx, nodes) && Bounded(ctx)
    ensures EffectiveEdge(ProcessOf(ctx, nodes), u, c) <==> u == a
    ensures EffectiveEdge(ProcessOf(ctx, nodes), u, a) <==> u == c
  {
    FedByOne(ctx, nodes, u, c, k);
    FedByOne(ctx, nodes, u, a, c);
  }

  lemma LineTargets(ctx: Context, order: seq<string>, nodes: seq<Node>)
    requires Colliding(ctx, order, nodes)
    ensures order[2] !in Targets(ctx, order[3]) && order[2] in Targets(ctx, order[1])
  {
    assert Placed(ctx, order, 1) && Placed(ctx, order, 3);
    assert [order[2]][0] == order[2];
  }

  lemma ForwardsInLine(ctx: Context, nodes: seq<Node>, eff: Graph, v: string)
    requires Standing(ctx, nodes) && v in ctx.nodes && ctx.nodes[v].id == v
    requires ctx.nodes[v].kind.Parallel? && |Prevs(ctx, v)| == 1
    ensures Forwards(ProcessOf(ctx, nodes), eff, v)
  {
    assert KeepsImage(ctx, ProcessOf(ctx, nodes), v);
    assert |Image(ctx, ctx.nodes[v]).prevs| == 1;
  }

  /** Two gateways that forward to each other light each other up for ever. */
  lemma TwoGoRound(m: NodeMap, eff: Graph, a: string, b: string)
    requires Forwards(m, eff, a) && Forwards(m, eff, b) && b in Succ(eff, a) && a in Succ(eff, b)
    ensures !Acyclic(eff) && !Ends(Forwarding(m, eff), a)
  {
    var g, p := Forwarding(m, eff), [a, b, a];
    assert Hop(g, p, 0) && Hop(g, p, 1);
    assert IsCycle(g, p);
    ForwardingInside(m, eff, p);
    assert IsCycle(eff, p);
    ReachesSelf(g, a);
  }

  lemma GoesRound(ctx: Context, nodes: seq<Node>, k: string, c: string, a: string, eff: Graph)
    requires Knot(ctx, nodes, k, c, a) && Standing(ctx, nodes) && Bounded(ctx) && Draws(eff, ProcessOf(ctx, nodes))
    ensures !Acyclic(eff) && !Ends(Forwarding(ProcessOf(ctx, nodes), eff), c)
  {
    Rerouted(ctx, nodes, k, c, a, c);
    Rerouted(ctx, nodes, k, c, a, a);
    ForwardsInLine(ctx, nodes, eff, c);
    ForwardsInLine(ctx, nodes, eff, a);
    TwoGoRound(ProcessOf(ctx, nodes), eff, c, a);
  }

  lemma CollisionGoesRound(ctx: Context, order: seq<string>, nodes: seq<Node>, eff: Graph, n: nat)
    requires Colliding(ctx, order, nodes)
    ensures Drawing(ctx, nodes) && Accepted(ctx) && NoSystemApprover(ctx) && !NamesServe(ctx, nodes)
    ensures !EffectiveEdge(ProcessOf(ctx, nodes), order[1], order[2]) && order[2] in Targets(ctx, order[1])
    ensures EffectiveEdge(ProcessOf(ctx, nodes), order[3], order[2]) && order[2] !in Targets(ctx, order[3])
    ensures Draws(eff, ProcessOf(ctx, nodes)) ==> !Acyclic(eff) && !LightsWithin(ProcessOf(ctx, nodes), eff, order[2], n)
  {
    CollisionConverts(ctx, order, nodes);
    ShortIdsKept(ctx, order, nodes);
    KeptStands(ctx, nodes);
    CollisionKnot(ctx, order, nodes);
    Rerouted(ctx, nodes, order[1], order[2], order[3], order[1]);
    Rerouted(ctx, nodes, order[1], order[2], order[3], order[3]);
    LineTargets(ctx, order, nodes);
    assert !SameEdge(ctx, ProcessOf(ctx, nodes), order[3], order[2]);
    RoundTripExactly(ctx, nodes);
    if Draws(eff, ProcessOf(ctx, nodes)) {
      GoesRound(ctx, nodes, order[1], order[2], order[3], eff);
      LightingEndsExactly(ProcessOf(ctx, nodes), eff, order[2]);
    }
  }

  /** A line of nodes s, a_b, c, a, b_c, e, drawn with a first. */
  const ORDER := ["s", "a_b", "c", "a", "b_c", "e"]

  function At(id: string, kind: NodeKind): Node { Node(id, kind, [], false, 0, "") }

  const NODES := [At("a", Parallel), At("s", StartNode), At("a_b", Condition), At("c", Parallel), At("b_c", Parallel),
                  At("e", EndNode)]

  const LINE := Context(
    map["a" := NODES[0], "s" := NODES[1], "a_b" := NODES[2], "c" := NODES[3], "b_c" := NODES[4], "e" := NODES[5]],
    map["s" := [Edge("s", "a_b", "")], "a_b" := [Edge("a_b", "c", "")], "c" := [Edge("c", "a", "")],
        "a" := [Edge("a", "b_c", "")], "b_c" := [Edge("b_c", "e", "")]],
    map["a_b" := ["s"], "c" := ["a_b"], "a" := ["c"], "b_c" := ["a"], "e" := ["b_c"]])

  lemma Letters()
    ensures Distinct(ORDER) && |ORDER| == 6
  {
    assert ORDER[0][0] == 's' && ORDER[1][0] == 'a' && ORDER[2][0] == 'c' && ORDER[3][0] == 'a' && ORDER[4][0] == 'b'
      && ORDER[5][0] == 'e';
    assert |ORDER[1]| == 3 && |ORDER[3]| == 1;
  }

  lemma LineAt(i: nat)
    requires i < 6
    ensures Placed(LINE, ORDER, i)
  {
    Letters();
    assert ORDER[0] == "s" && ORDER[1] == "a_b" && ORDER[2] == "c" && ORDER[3] == "a" && ORDER[4] == "b_c" && ORDER[5] == "e";
  }

  /** The place in the line of the node drawn as number `k`. */
  function Place(k: nat): nat { if k == 0 then 3 else if k < 4 then k - 1 else k }

  lemma LineNode(k: nat)
    requires k < 6
    ensures NODES[k].id == ORDER[Place(k)] && |NODES[k].id| < 7
    ensures NODES[k].id in LINE.nodes && LINE.nodes[NODES[k].id] == NODES[k]
  {
    Letters();
    assert ORDER[0] == "s" && ORDER[1] == "a_b" && ORDER[2] == "c" && ORDER[3] == "a" && ORDER[4] == "b_c" && ORDER[5] == "e";
  }

  /** Each node of the context is one of those drawn. */
  lemma LineHolds(id: string) returns (k: nat)
    requires id in LINE.nodes
    ensures k < 6 && NODES[k].id == id
  {
    k := if id == "a" then 0 else if id == "s" then 1 else if id == "a_b" then 2 else if id == "c" then 3
         else if id == "b_c" then 4 else 5;
  }

  lemma LineShort()
    ensures ShortIds(LINE)
  {
    forall id | id in LINE.nodes ensures |id| < 7 && LINE.nodes[id].id == id {
      var k := LineHolds(id);
      LineNode(k);
    }
  }

  lemma LineApart(i: nat, j: nat)
    requires i < j < 6
    ensures NODES[i].id != NODES[j].id
  {
    Letters();
    LineNode(i);
    LineNode(j);
    assert Place(i) != Place(j);
  }

  lemma LineDrawn()
    ensures DrawnOnce(LINE, NODES)
  {
    forall i, j | 0 <= i < j < |NODES| ensures NODES[i].id != NODES[j].id { LineApart(i, j); }
    forall k | 0 <= k < |NODES| ensures NODES[k].id in LINE.nodes && LINE.nodes[NODES[k].id] == NODES[k] { LineNode(k); }
    forall id | id in LINE.nodes ensures LINE.nodes[id] in NODES {
      var k := LineHolds(id);
      LineNode(k);
      assert LINE.nodes[id] == NODES[k];
    }
  }

  lemma LineStraight()
    ensures Straight(LINE, ORDER)
  {
    Letters();
    forall i | 0 <= i < |ORDER| ensures Placed(LINE, ORDER, i) { LineAt(i); }
    assert ORDER[0] == "s" && ORDER[1] == "a_b" && ORDER[2] == "c" && ORDER[3] == "a" && ORDER[4] == "b_c" && ORDER[5] == "e";
  }

  lemma LineKinds()
    ensures |ORDER| == 6 && Kinds(LINE, ORDER)
  {
    Letters();
    assert ORDER[0] == "s" && ORDER[1] == "a_b" && ORDER[2] == "c" && ORDER[3] == "a" && ORDER[4] == "b_c" && ORDER[5] == "e";
  }

  lemma SameName()
    ensures ProxyId("a_b", "c") == ProxyId("a", "b_c")
  {
    calc {
      ProxyId("a_b", "c");
      "proxy_" + "a_b" + "_" + "c";
      "proxy_a_b_c";
      "proxy_" + "a" + "_" + "b_c";
      ProxyId("a", "b_c");
    }
  }

  lemma LineCollides()
    ensures Colliding(LINE, ORDER, NODES)
  {
    LineStraight();
    LineKinds();
    LineDrawn();
    LineShort();
    SameName();
  }

  /** The naming scheme alone does not keep proxies apart. This canvas is accepted and has no system approver, yet
      the proxies of a to b_c and of a_b to c get one name and only the first is made. In place of the edge from a_b
      to c the drawn graph has one from a, behind c, back to c: it has a cycle, and lighting ahead of c never ends. */
  lemma ProxyNamesMayCollide(eff: Graph, n: nat)
    ensures Drawing(LINE, NODES) && Accepted(LINE) && NoSystemApprover(LINE) && !NamesServe(LINE, NODES)
    ensures var m := ProcessOf(LINE, NODES);
      && !EffectiveEdge(m, ORDER[1], ORDER[2]) && ORDER[2] in Targets(LINE, ORDER[1])
      && EffectiveEdge(m, ORDER[3], ORDER[2]) && ORDER[2] !in Targets(LINE, ORDER[3])
      && (Draws(eff, m) ==> !Acyclic(eff) && !LightsWithin(m, eff, ORDER[2], n))
  {
    LineCollides();
    CollisionGoesRound(LINE, ORDER, NODES, eff, n);
  }

  // ---------------------------------------------------------------- names that change places

  lemma FirstTwo(pairs: seq<(string, string)>, name: string)
    requires |pairs| == 4 && ProxyId(pairs[0].0, pairs[0].1) != ProxyId(pairs[1].0, pairs[1].1)
    ensures var k := if name == ProxyId(pairs[0].0, pairs[0].1) then 0 else 1;
      name == ProxyId(pairs[k].0, pairs[k].1) ==> Named(pairs, name) && First(pairs, name) == pairs[k]
  {
    var a, b := pairs[..1], pairs[..2];
    NamedAppended([], pairs[0], name);
    NamedAppended(a, pairs[1], name);
    NamedAppended(b, pairs[2], name);
    NamedAppended(b + [pairs[2]], pairs[3], name);
    assert a == [] + [pairs[0]] && b == a + [pairs[1]] && pairs == b + [pairs[2]] + [pairs[3]];
  }

  /** A condition need not get its own proxy for nothing to be lost: x and x_a, both leading to a_b, each get the one the
      other was given for a gateway drawn before, so that what leads back to a_b is still x and x_a. */
  lemma ProxiesMayChangePlaces()
    ensures var pairs := [("x_a", "b"), ("x", "a_a_b"), ("x", "a_b"), ("x_a", "a_b")];
      && Named(pairs, ProxyId("x", "a_b")) && First(pairs, ProxyId("x", "a_b")).0 == "x_a"
      && Named(pairs, ProxyId("x_a", "a_b")) && First(pairs, ProxyId("x_a", "a_b")).0 == "x"
  {
    var pairs := [("x_a", "b"), ("x", "a_a_b"), ("x", "a_b"), ("x_a", "a_b")];
    assert ProxyId("x", "a_b") == "proxy_x_a_b" == ProxyId("x_a", "b");
    assert ProxyId("x_a", "a_b") == "proxy_x_a_a_b" == ProxyId("x", "a_a_b");
    assert |"proxy_x_a_b"| != |"proxy_x_a_a_b"|;
    FirstTwo(pairs, ProxyId("x", "a_b"));
    FirstTwo(pairs, ProxyId("x_a", "a_b"));
  }
}
