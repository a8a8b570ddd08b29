/** The canvas from drawing to display: converted for the engine, then drawn again with the proxies left out. */
module CanvasPipeline {
  import opened Prelude
  import opened Graphs
  import opened CanvasModel
  import opened CanvasCycles
  import opened CanvasValidator
  import opened EffectiveGraph
  import opened CanvasConverter
  import opened CanvasNames
  import opened CanvasRoundTrip
  import opened RecordStats
  import opened GatewayPaths
  import opened PathHighlight

  /** The graph joins exactly the pairs of nodes that the canvas joins. */
  ghost predicate DrawsEdges(g: Graph, edges: seq<Edge>) {
    forall u, v :: v in Succ(g, u) <==> HasPair(edges, u, v)
  }

  ghost predicate DistinctNodes(nodes: seq<Node>) {
    forall i, j | 0 <= i < j < |nodes| :: nodes[i].id != nodes[j].id
  }

  /** Nobody is assigned to the proxies' own user. */
  ghost predicate NoSystemUser(nodes: seq<Node>) {
    forall k | 0 <= k < |nodes| :: nodes[k].kind.User? ==> SYS_AUTO !in nodes[k].approved
  }

  lemma ApproversDrawn(ctx: Context, nodes: seq<Node>)
    requires DrawnOnce(ctx, nodes)
    ensures NoSystemUser(nodes) <==> NoSystemApprover(ctx)
  {
    if NoSystemApprover(ctx) {
      forall k | 0 <= k < |nodes| ensures nodes[k].kind.User? ==> SYS_AUTO !in nodes[k].approved {
        assert !SystemApproved(ctx, nodes[k].id);
      }
    }
    if NoSystemUser(nodes) {
      forall v | v in ctx.nodes ensures !SystemApproved(ctx, v) {
        var k :| 0 <= k < |nodes| && nodes[k] == ctx.nodes[v];
      }
    }
  }

  lemma TargetIsPair(ctx: Context, nodes: seq<Node>, unique: seq<Edge>, u: string, v: string)
    requires Indexes(ctx, nodes, unique)
    ensures v in Targets(ctx, u) <==> HasPair(unique, u, v)
  {
    var out := OutEdges(ctx, u);
    if v in Targets(ctx, u) {
      var k :| 0 <= k < |out| && Targets(ctx, u)[k] == v;
      assert out[k] in unique;
      var j :| 0 <= j < |unique| && unique[j] == out[k];
      assert Joins(unique[j], u, v);
    }
    if HasPair(unique, u, v) {
      var j :| 0 <= j < |unique| && Joins(unique[j], u, v);
      assert unique[j] in From(unique, u);
      var k :| 0 <= k < |out| && out[k] == unique[j];
      assert Targets(ctx, u)[k] == v;
    }
  }

  lemma SameEdges(ctx: Context, nodes: seq<Node>, edges: seq<Edge>, unique: seq<Edge>, m: NodeMap, g: Graph)
    requires Indexes(ctx, nodes, unique) && SamePairs(unique, edges) && Draws(g, m)
    ensures DrawsEdges(g, edges) <==> GivesBack(ctx, m)
  {
    forall u, v ensures v in Targets(ctx, u) <==> HasPair(edges, u, v) { TargetIsPair(ctx, nodes, unique, u, v); }
    if GivesBack(ctx, m) {
      forall u, v ensures v in Succ(g, u) <==> HasPair(edges, u, v) { assert SameEdge(ctx, m, u, v); }
    }
    if DrawsEdges(g, edges) {
      forall u, v ensures SameEdge(ctx, m, u, v) {}
    }
  }

  /** The process index and its keys, each once. */
  method IndexProcess(made: seq<EngineNode>) returns (m: NodeMap, keys: seq<string>)
    ensures m == KeyById(made) && Distinct(keys) && forall v :: v in keys <==> v in m
  {
    m, keys := map[], [];
    for k := 0 to |made|
      invariant m == KeyById(made[..k]) && Distinct(keys) && forall v :: v in keys <==> v in m
    {
      assert made[..k + 1][..k] == made[..k];
      if made[k].id !in m {
        keys := keys + [made[k].id];
      }
      m := m[made[k].id := made[k]];
    }
    assert made[..|made|] == made;
  }

  /** No handler refuses any of the nodes. */
  ghost predicate AllTaken(ctx: Context, nodes: seq<Node>) {
    forall k | 0 <= k < |nodes| :: Takes(ctx, nodes[k])
  }

  /** The canvas is accepted and every node of it taken. */
  ghost predicate Converts(nodes: seq<Node>, edges: seq<Edge>) {
    Accepted(CanvasContext(nodes, edges)) && AllTaken(CanvasContext(nodes, edges), nodes)
  }

  /** The index of the process that the canvas is converted to. */
  function CanvasProcess(nodes: seq<Node>, edges: seq<Edge>): NodeMap {
    var ctx := CanvasContext(nodes, edges);
    if Converted(ctx, nodes).Ok? then ProcessOf(ctx, nodes) else map[]
  }

  /** Every predecessor of a node, and every target a gateway names, is a node of the process. */
  ghost predicate References(m: NodeMap) {
    && (forall v, p | v in m && p in m[v].prevs :: p in m)
    && (forall v, x {:trigger Names(m[v], x)} | v in m && Names(m[v], x) :: x in m)
  }

  /** Every target a gateway names has the gateway among its predecessors. */
  ghost predicate NamesBack(m: NodeMap) {
    forall v, x {:trigger Names(m[v], x)} | v in m && Names(m[v], x) :: x in m && v in m[x].prevs
  }

  lemma ReferencesResolve(ctx: Context, nodes: seq<Node>)
    requires Drawing(ctx, nodes) && Bounded(ctx)
    ensures References(ProcessOf(ctx, nodes))
    ensures FreshNames(ctx) ==> NamesBack(ProcessOf(ctx, nodes))
  {
    var m := ProcessOf(ctx, nodes);
    forall v, p | v in m && p in m[v].prevs ensures p in m { PredecessorsExist(ctx, nodes, v, p); }
    forall v, x | v in m && Names(m[v], x) ensures x in m && (FreshNames(ctx) ==> v in m[x].prevs) {
      TargetsExist(ctx, nodes, v, x);
    }
  }

  /** What the canvas's own data tell about the names generated for it. */
  ghost predicate CanvasNamesServe(nodes: seq<Node>, edges: seq<Edge>) { NamesServe(CanvasContext(nodes, edges), nodes) }

  ghost predicate CanvasNamesFresh(nodes: seq<Node>, edges: seq<Edge>) { FreshNames(CanvasContext(nodes, edges)) }

  lemma CanvasDrawing(nodes: seq<Node>, edges: seq<Edge>)
    requires DistinctNodes(nodes)
    ensures var ctx := CanvasContext(nodes, edges);
      DrawnOnce(ctx, nodes) && WellBuilt(ctx) && (Converts(nodes, edges) ==> Drawing(ctx, nodes))
  {
    var ctx := CanvasContext(nodes, edges);
    IndexedIsWellBuilt(ctx, nodes, Deduplicated(edges));
    IndexedOnce(ctx, nodes, Deduplicated(edges));
    ConversionFailsExactly(ctx, nodes);
  }

  lemma DrawnEdges(nodes: seq<Node>, edges: seq<Edge>, g: Graph)
    requires DistinctNodes(nodes) && Converts(nodes, edges)
    requires Draws(g, CanvasProcess(nodes, edges))
    ensures DrawsEdges(g, edges) <==> NoSystemUser(nodes) && CanvasNamesServe(nodes, edges)
    ensures CanvasNamesFresh(nodes, edges) ==> CanvasNamesServe(nodes, edges) && Acyclic(g)
    ensures DrawsEdges(g, edges) ==> Acyclic(g)
  {
    var ctx := CanvasContext(nodes, edges);
    CanvasDrawing(nodes, edges);
    AcceptedBase(ctx);
    RoundTripExactly(ctx, nodes);
    ApproversDrawn(ctx, nodes);
    DeduplicatedExactly(edges);
    SameEdges(ctx, nodes, edges, Deduplicated(edges), ProcessOf(ctx, nodes), g);
    if FreshNames(ctx) {
      FreshNamesServe(ctx, nodes);
      DrawnGraphAcyclic(ctx, nodes, g);
    }
    if DrawsEdges(g, edges) { GivenBackAcyclic(ctx, ProcessOf(ctx, nodes), g); }
  }

  lemma GivenBackAcyclic(ctx: Context, m: NodeMap, g: Graph)
    requires GivesBack(ctx, m) && Draws(g, m) && Acyclic(ForwardGraph(ctx))
    ensures Acyclic(g)
  {
    forall p ensures !IsCycle(g, p) {
      if IsCycle(g, p) {
        forall k: nat | k + 1 < |p| ensures Hop(ForwardGraph(ctx), p, k) {
          assert Hop(g, p, k) && SameEdge(ctx, m, p[k], p[k + 1]);
        }
        assert IsCycle(ForwardGraph(ctx), p);
      }
    }
  }

  /** Under the id of every canvas node that keeps it stands the engine node that renders it. */
  ghost predicate RendersCanvas(nodes: seq<Node>, edges: seq<Edge>, m: NodeMap) {
    var ctx := CanvasContext(nodes, edges);
    forall k {:trigger KeepsId(ctx, nodes, k)} | 0 <= k < |nodes| && KeepsId(ctx, nodes, k) ::
      nodes[k].id in m && Renders(ctx, nodes[k], m[nodes[k].id])
  }

  lemma ProcessRenders(nodes: seq<Node>, edges: seq<Edge>)
    requires DistinctNodes(nodes) && Converts(nodes, edges)
    ensures RendersCanvas(nodes, edges, CanvasProcess(nodes, edges))
    ensures CanvasNamesFresh(nodes, edges) ==> IdsKept(CanvasContext(nodes, edges), nodes)
  {
    var ctx := CanvasContext(nodes, edges);
    CanvasDrawing(nodes, edges);
    forall k | 0 <= k < |nodes| && KeepsId(ctx, nodes, k)
      ensures nodes[k].id in CanvasProcess(nodes, edges)
      ensures Renders(ctx, nodes[k], CanvasProcess(nodes, edges)[nodes[k].id])
    {
      NodeHeld(ctx, nodes, k);
      ImageRenders(ctx, nodes[k]);
    }
    if FreshNames(ctx) { FreshNamesServe(ctx, nodes); }
  }

  /** One rule per edge drawn out of a condition, in the order drawn and with overlaps dropped: the edge's own
      expression, or `1 = 1` exactly where it has none. */
  lemma RulesAsDrawn(nodes: seq<Node>, edges: seq<Edge>, k: nat) returns (ps: seq<nat>)
    requires DistinctNodes(nodes) && Converts(nodes, edges) && k < |nodes| && nodes[k].kind == Condition
    requires KeepsId(CanvasContext(nodes, edges), nodes, k)
    ensures var drawn, m := Deduplicated(edges), CanvasProcess(nodes, edges);
      && OutPositions(drawn, nodes[k].id, ps) && nodes[k].id in m && |m[nodes[k].id].conditions| == |ps|
      && forall j | 0 <= j < |ps| :: ps[j] < |drawn| && m[nodes[k].id].conditions[j].expression ==
           if drawn[ps[j]].expression == "" then "1 = 1" else drawn[ps[j]].expression
  {
    ProcessRenders(nodes, edges);
    var ctx, drawn := CanvasContext(nodes, edges), Deduplicated(edges);
    ps := FromInOrder(drawn, nodes[k].id);
    assert OutEdges(ctx, nodes[k].id) == From(drawn, nodes[k].id);
  }

  /** Round trip, from the drawn canvas to the graph drawn of its process. It succeeds exactly on accepted canvases whose
      nodes the handlers take; then every reference in the process resolves. The graph has exactly the canvas's edges,
      each once, if and only if nobody is assigned to the proxies' own user and the generated names serve; fresh names
      do, and give distinct ids and gateways named back by their targets. */
  method ConvertAndDraw(nodes: seq<Node>, edges: seq<Edge>)
    returns (r: Result<Graph, ConvertError>, made: seq<EngineNode>, m: NodeMap)
    requires DistinctNodes(nodes)
    ensures r.Ok? <==> Converts(nodes, edges)
    ensures r.Ok? ==> m == KeyById(made) == CanvasProcess(nodes, edges) && References(m) && Draws(r.value, m)
    ensures r.Ok? ==> RendersCanvas(nodes, edges, m)
    ensures r.Ok? ==> (DrawsEdges(r.value, edges) <==> NoSystemUser(nodes) && CanvasNamesServe(nodes, edges))
    ensures r.Ok? && DrawsEdges(r.value, edges) ==> Acyclic(r.value)
    ensures r.Ok? && CanvasNamesFresh(nodes, edges) ==> CanvasNamesServe(nodes, edges) && Acyclic(r.value)
    ensures r.Ok? && CanvasNamesFresh(nodes, edges) ==> DistinctIds(made) && NamesBack(m)
  {
    var converted, ctx, unique := Convert(nodes, edges);
    CanvasDrawing(nodes, edges);
    ConversionFailsExactly(ctx, nodes);
    if converted.Err? {
      return Err(converted.error), [], map[];
    }
    made := converted.value;
    ProcessRenders(nodes, edges);
    AcceptedBase(ctx);
    CollapseTerminates(ctx, nodes);
    ReferencesResolve(ctx, nodes);
    if FreshNames(ctx) { ConvertedRenders(ctx, nodes); }
    var keys;
    m, keys := IndexProcess(made);
    var graph := BuildEffectiveGraph(m, keys, CollapseRank(ctx, m));
    DrawnEdges(nodes, edges, graph);
    r := Ok(graph);
  }

  // ---------------------------------------------------------------- proxies in the records

  lemma FreshProxy(ctx: Context, nodes: seq<Node>, s: string, t: string)
    requires Drawing(ctx, nodes) && FreshNames(ctx) && ProxyEdge(ctx, s, t)
    ensures var m, id := ProcessOf(ctx, nodes), ProxyId(s, t); ProxyIn(m, id) && m[id].prevs == [s] && RealIn(m, s)
  {
    FreshProxyHeld(ctx, nodes, s, t);
    SourceIsNode(ctx, s, t);
    FreshNodeHeld(ctx, nodes, s);
  }

  /** What the proxy of a canvas edge stands for in a task record: the source of the edge, if names are fresh. */
  lemma ProxyStandsForSource(nodes: seq<Node>, edges: seq<Edge>, s: string, t: string, prev: string)
    requires DistinctNodes(nodes) && Converts(nodes, edges) && CanvasNamesFresh(nodes, edges)
    requires ProxyEdge(CanvasContext(nodes, edges), s, t)
    ensures LogicalPrev(CanvasProcess(nodes, edges), ProxyId(s, t), prev) <==> prev == s
  {
    CanvasDrawing(nodes, edges);
    FreshProxy(CanvasContext(nodes, edges), nodes, s, t);
    StandsForPrev(CanvasProcess(nodes, edges), ProxyId(s, t), s, prev);
  }

  /** A record that came to a node through the proxy of edge (s, t) lights a way from `s` to the node, and a shortest one,
      wherever the drawn graph has one within the bound. */
  lemma RecordThroughProxy(nodes: seq<Node>, edges: seq<Edge>, s: string, t: string, eff: Graph, records: seq<Record>, r: Record,
                           before: Graph, cleared: Graph, after: Graph, back: Option<seq<string>>, way: seq<string>)
    requires DistinctNodes(nodes) && Converts(nodes, edges) && CanvasNamesFresh(nodes, edges)
    requires ProxyEdge(CanvasContext(nodes, edges), s, t) && r.prevNode == ProxyId(s, t)
    requires r.status != 2 && r.status != 3 && !SystemPassed(records, r.node, r.batch)
    requires RecordStep(CanvasProcess(nodes, edges), eff, records, r, before, cleared, after, back)
    requires GatewayPath(CanvasProcess(nodes, edges), eff, s, r.node, way) && |way| <= 21
    ensures back.Some? && GatewayPath(CanvasProcess(nodes, edges), eff, s, r.node, back.value) && |back.value| <= |way|
    ensures forall u, v | PathHighlight.OnPath(back.value, u, v) :: v in Succ(after, u)
  {
    var m := CanvasProcess(nodes, edges);
    assert |r.prevNode| > 0;
    assert Approached(m, eff, r, back);
    var prev :| LogicalPrev(m, r.prevNode, prev) && Answers(m, eff, prev, r.node, back);
    ProxyStandsForSource(nodes, edges, s, t, prev);
    LightsByStatus(m, eff, records, r, before, cleared, after, back);
  }

  /** Which gateways of the canvas pass the light on: parallel and selective ones behind at most one predecessor, and
      conditions with at most one way on. Inclusion gateways never do. */
  lemma LightOnCanvas(ctx: Context, n: Node, m: NodeMap, eff: Graph)
    requires n.id in m && Renders(ctx, n, m[n.id])
    ensures n.kind == Parallel || n.kind == Selective ==> (Forwards(m, eff, n.id) <==> |Prevs(ctx, n.id)| <= 1)
    ensures n.kind == Condition ==> (Forwards(m, eff, n.id) <==> |Succ(eff, n.id)| <= 1)
    ensures n.kind != Parallel && n.kind != Selective && n.kind != Condition ==> !Forwards(m, eff, n.id)
  {
  }

  // ---------------------------------------------------------------- and the travelled edges on it

  ghost predicate DrawnFrom(g: Graph, edges: seq<Edge>) {
    forall u, v | v in Succ(g, u) :: HasPair(edges, u, v)
  }

  /** However the drawn graph orders its edges, lighting ahead ends on it for every record that does it. */
  ghost predicate CanvasLightingEnds(nodes: seq<Node>, edges: seq<Edge>, records: seq<Record>) {
    var m := CanvasProcess(nodes, edges);
    forall eff {:trigger Draws(eff, m)} | Draws(eff, m) :: LightingEnds(m, eff, records)
  }

  /** Canvases whose edges are given back, and all with fresh names, are among those on which lighting ends. */
  lemma ServingLightingEnds(nodes: seq<Node>, edges: seq<Edge>, records: seq<Record>)
    requires DistinctNodes(nodes) && Converts(nodes, edges)
    requires CanvasNamesFresh(nodes, edges) || (NoSystemUser(nodes) && CanvasNamesServe(nodes, edges))
    ensures CanvasLightingEnds(nodes, edges, records)
  {
    var m := CanvasProcess(nodes, edges);
    forall eff | Draws(eff, m) ensures LightingEnds(m, eff, records) {
      DrawnEdges(nodes, edges, eff);
      AcyclicLightingEnds(m, eff, records);
    }
  }

  /** What is highlighted for an instance of the canvas's process: only edges drawn of it, all hanging together from the
      root, whatever the task records are; edges of the canvas if the canvas is given back. */
  method HighlightCanvas(nodes: seq<Node>, edges: seq<Edge>, records: seq<Record>, root: string)
    returns (r: Result<Graph, ConvertError>)
    requires DistinctNodes(nodes)
    requires Converts(nodes, edges) ==> CanvasLightingEnds(nodes, edges, records)
    ensures r.Ok? <==> Converts(nodes, edges)
    ensures r.Ok? && root != "" ==> HangsTogether(r.value, root)
    ensures r.Ok? ==> forall u, v | v in Succ(r.value, u) :: EffectiveEdge(CanvasProcess(nodes, edges), u, v)
    ensures r.Ok? && NoSystemUser(nodes) && CanvasNamesServe(nodes, edges) ==> DrawnFrom(r.value, edges)
  {
    var drawn, made, m := ConvertAndDraw(nodes, edges);
    if drawn.Err? {
      return drawn;
    }
    ghost var ctx := CanvasContext(nodes, edges);
    CanvasDrawing(nodes, edges);
    AcceptedBase(ctx);
    CollapseTerminates(ctx, nodes);
    assert Draws(drawn.value, m);
    var lit, trace := PathHighlight.TraversedEdges(m, drawn.value, records, root, CollapseRank(ctx, m));
    r := Ok(lit);
  }
}
