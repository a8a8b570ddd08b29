/** Tracing back through gateways: to the activities in front of a join, and to the approval a rejection falls back
    to. Both recursions follow edges backwards without remembering where they have been. */
module FlowTrace {
  import opened Prelude
  import opened Graphs
  import opened FlowPlan
  import opened FlowStep

  // ---------------------------------------------------------------- tracing back through gateways

  /** From a node back to the gateways it is entered from. */
  function Back(plan: ExecutionPlan): (g: Graph)
    ensures forall v :: Succ(g, v) == GatewaySources(plan, In(plan, v))
  {
    map v | v in plan.inEdges :: GatewaySources(plan, plan.inEdges[v])
  }

  function GatewaySources(plan: ExecutionPlan, edges: seq<EdgeSpec>): (r: seq<string>)
    ensures forall w :: w in r <==> IsGatewayIn(plan, w) && exists k :: 0 <= k < |edges| && edges[k].source == w
  {
    if edges == [] then [] else
    (if IsGatewayIn(plan, edges[0].source) then [edges[0].source] else []) + GatewaySources(plan, edges[1..])
  }

  predicate ActivityAt(plan: ExecutionPlan, id: string, n: NodeSpec) {
    id in plan.nodes && plan.nodes[id] == n && (n.kind == Approval || n.kind == Automatic || n.kind == CarbonCopy)
  }

  predicate EntersActivity(plan: ExecutionPlan, v: string, n: NodeSpec) {
    exists k :: 0 <= k < |In(plan, v)| && ActivityAt(plan, In(plan, v)[k].source, n)
  }

  /** Activity `n` leads to `v` through gateways only. */
  ghost predicate Precedes(plan: ExecutionPlan, v: string, n: NodeSpec) {
    exists w :: Reaches(Back(plan), v, w) && EntersActivity(plan, w, n)
  }

  /** What edge `e` contributes to the nodes preceding its target. */
  ghost predicate ViaEdge(plan: ExecutionPlan, e: EdgeSpec, n: NodeSpec) {
    ActivityAt(plan, e.source, n) || (IsGatewayIn(plan, e.source) && Precedes(plan, e.source, n))
  }

  ghost predicate ViaSome(plan: ExecutionPlan, edges: seq<EdgeSpec>, n: NodeSpec) {
    exists k :: 0 <= k < |edges| && ViaEdge(plan, edges[k], n)
  }

  lemma PrecedesByEdge(plan: ExecutionPlan, v: string, n: NodeSpec)
    ensures Precedes(plan, v, n) <==> ViaSome(plan, In(plan, v), n)
  {
    var g, edges := Back(plan), In(plan, v);
    if Precedes(plan, v, n) {
      var w :| Reaches(g, v, w) && EntersActivity(plan, w, n);
      var p :| Connects(g, p, v, w);
      if |p| == 1 {
        var k :| 0 <= k < |edges| && ActivityAt(plan, edges[k].source, n);
        assert ViaEdge(plan, edges[k], n);
      } else {
        assert Hop(g, p, 0);
        TailPath(g, p);
        assert Connects(g, p[1..], p[1], w);
        var k :| 0 <= k < |edges| && edges[k].source == p[1];
        assert ViaEdge(plan, edges[k], n);
      }
    }
    if ViaSome(plan, edges, n) {
      var k :| 0 <= k < |edges| && ViaEdge(plan, edges[k], n);
      if ActivityAt(plan, edges[k].source, n) {
        ReachesSelf(g, v);
        assert EntersActivity(plan, v, n);
      } else {
        var w :| Reaches(g, edges[k].source, w) && EntersActivity(plan, w, n);
        ReachesFront(g, v, edges[k].source, w);
      }
    }
  }

  function UniqueNodes(nodes: seq<NodeSpec>): (r: seq<NodeSpec>) {
    if nodes == [] then [] else
    var r := UniqueNodes(nodes[..|nodes| - 1]);
    if nodes[|nodes| - 1].id in Ids(r) then r else r + [nodes[|nodes| - 1]]
  }

  lemma AppendsId(nodes: seq<NodeSpec>, n: NodeSpec)
    ensures Ids(nodes + [n]) == Ids(nodes) + [n.id]
  {
  }

  lemma {:induction false} UniqueKeepsIds(nodes: seq<NodeSpec>)
    ensures Distinct(Ids(UniqueNodes(nodes)))
    ensures forall id :: id in Ids(UniqueNodes(nodes)) <==> id in Ids(nodes)
    ensures forall n | n in UniqueNodes(nodes) :: n in nodes
  {
    if nodes != [] {
      var rest, last := nodes[..|nodes| - 1], nodes[|nodes| - 1];
      UniqueKeepsIds(rest);
      assert nodes == rest + [last];
      AppendsId(rest, last);
      AppendsId(UniqueNodes(rest), last);
    }
  }

  /** Where ids name nodes, keeping one node per id keeps all nodes. */
  lemma UniqueKeepsNodes(plan: ExecutionPlan, nodes: seq<NodeSpec>, n: NodeSpec)
    requires forall x | x in nodes :: x.id in plan.nodes && plan.nodes[x.id] == x
    ensures n in UniqueNodes(nodes) <==> n in nodes
  {
    UniqueKeepsIds(nodes);
    if n in nodes {
      var k :| 0 <= k < |nodes| && nodes[k] == n;
      assert Ids(nodes)[k] == n.id && n.id in Ids(nodes);
      var j :| 0 <= j < |UniqueNodes(nodes)| && Ids(UniqueNodes(nodes))[j] == n.id;
      assert UniqueNodes(nodes)[j] in UniqueNodes(nodes);
    }
  }

  ghost predicate KeyedNodes(plan: ExecutionPlan, nodes: seq<NodeSpec>) {
    forall x | x in nodes :: x.id in plan.nodes && plan.nodes[x.id] == x
  }

  lemma ViaFront(plan: ExecutionPlan, edges: seq<EdgeSpec>, n: NodeSpec)
    requires |edges| > 0
    ensures ViaSome(plan, edges, n) <==> ViaEdge(plan, edges[0], n) || ViaSome(plan, edges[1..], n)
  {
    if ViaSome(plan, edges[1..], n) {
      var k :| 0 <= k < |edges[1..]| && ViaEdge(plan, edges[1..][k], n);
      assert ViaEdge(plan, edges[k + 1], n);
    }
    if ViaSome(plan, edges, n) && !ViaEdge(plan, edges[0], n) {
      var k :| 0 <= k < |edges| && ViaEdge(plan, edges[k], n);
      assert edges[1..][k - 1] == edges[k];
    }
  }

  // ---------------------------------------------------------------- the activities in front of a gateway

  /** No gateway leads back to itself through gateways. Validation does not ask for this. */
  ghost predicate GatewaysAcyclic(plan: ExecutionPlan) { Acyclic(Back(plan)) }

  ghost function Height(plan: ExecutionPlan, v: string): nat { |Ahead(Back(plan), v)| }

  /** Every gateway the edges come from can be traced back, within the given height. */
  ghost predicate SourcesEnd(plan: ExecutionPlan, edges: seq<EdgeSpec>, bound: nat) {
    forall k {:trigger edges[k]} | 0 <= k < |edges| && IsGatewayIn(plan, edges[k].source) ::
      Ends(Back(plan), edges[k].source) && Height(plan, edges[k].source) < bound
  }

  lemma SourcesLower(plan: ExecutionPlan, v: string)
    requires Ends(Back(plan), v)
    ensures SourcesEnd(plan, In(plan, v), Height(plan, v))
  {
    var edges := In(plan, v);
    forall k | 0 <= k < |edges| && IsGatewayIn(plan, edges[k].source)
      ensures Ends(Back(plan), edges[k].source) && Height(plan, edges[k].source) < Height(plan, v)
    {
      assert edges[k].source in Succ(Back(plan), v);
      AheadShrinks(Back(plan), v, edges[k].source);
    }
  }

  /** The activities in front of a node, gateways skipped, each once. */
  function PrecedingNodes(plan: ExecutionPlan, v: string): seq<NodeSpec>
    requires Ends(Back(plan), v)
    decreases Height(plan, v), |In(plan, v)| + 1
  {
    SourcesLower(plan, v);
    UniqueNodes(PrecedingVia(plan, In(plan, v), Height(plan, v)))
  }

  function PrecedingVia(plan: ExecutionPlan, edges: seq<EdgeSpec>, ghost bound: nat): seq<NodeSpec>
    requires SourcesEnd(plan, edges, bound)
    decreases bound, |edges|
  {
    if edges == [] then [] else
    var src := edges[0].source;
    (if src !in plan.nodes then []
     else if plan.nodes[src].IsActivity() then [plan.nodes[src]]
     else if plan.nodes[src].IsGateway() then PrecedingNodes(plan, src)
     else [])
    + PrecedingVia(plan, edges[1..], bound)
  }

  /** Tracing back finds exactly the activities that lead to the gateway through gateways only. */
  lemma {:induction false} PrecedingExactly(plan: ExecutionPlan, v: string, n: NodeSpec)
    requires Indexed(plan) && Ends(Back(plan), v)
    ensures n in PrecedingNodes(plan, v) <==> Precedes(plan, v, n)
    ensures KeyedNodes(plan, PrecedingNodes(plan, v)) && Distinct(Ids(PrecedingNodes(plan, v)))
    decreases Height(plan, v), |In(plan, v)| + 1
  {
    SourcesLower(plan, v);
    var found := PrecedingVia(plan, In(plan, v), Height(plan, v));
    ViaExactly(plan, In(plan, v), Height(plan, v), n);
    UniqueKeepsNodes(plan, found, n);
    UniqueKeepsIds(found);
    PrecedesByEdge(plan, v, n);
  }

  lemma {:induction false} ViaExactly(plan: ExecutionPlan, edges: seq<EdgeSpec>, bound: nat, n: NodeSpec)
    requires Indexed(plan) && SourcesEnd(plan, edges, bound)
    ensures n in PrecedingVia(plan, edges, bound) <==> ViaSome(plan, edges, n)
    ensures KeyedNodes(plan, PrecedingVia(plan, edges, bound))
    decreases bound, |edges|
  {
    if edges != [] {
      var src := edges[0].source;
      ViaExactly(plan, edges[1..], bound, n);
      ViaFront(plan, edges, n);
      if IsGatewayIn(plan, src) {
        PrecedingExactly(plan, src, n);
      }
    }
  }

  // ---------------------------------------------------------------- when the recursion ends

  /** The recursion with a limit on its depth: nothing is found if it runs deeper. */
  function TraceBack(plan: ExecutionPlan, v: string, depth: nat): Option<seq<NodeSpec>>
    decreases depth, 0
  {
    if depth == 0 then None else
    match TraceVia(plan, In(plan, v), depth - 1)
    case None => None
    case Some(found) => Some(UniqueNodes(found))
  }

  function TraceVia(plan: ExecutionPlan, edges: seq<EdgeSpec>, depth: nat): Option<seq<NodeSpec>>
    decreases depth, |edges|
  {
    if edges == [] then Some([]) else
    var src := edges[0].source;
    var first :=
      if src !in plan.nodes then Some([])
      else if plan.nodes[src].IsActivity() then Some([plan.nodes[src]])
      else if plan.nodes[src].IsGateway() then TraceBack(plan, src, depth)
      else Some([]);
    match (first, TraceVia(plan, edges[1..], depth))
    case (Some(found), Some(rest)) => Some(found + rest)
    case _ => None
  }

  ghost predicate SourcesWithin(plan: ExecutionPlan, edges: seq<EdgeSpec>, depth: nat) {
    forall k {:trigger edges[k]} | 0 <= k < |edges| && IsGatewayIn(plan, edges[k].source) ::
      WalksWithin(Back(plan), edges[k].source, depth)
  }

  lemma {:induction false} ViaWithin(plan: ExecutionPlan, edges: seq<EdgeSpec>, depth: nat)
    ensures TraceVia(plan, edges, depth).Some? <==> SourcesWithin(plan, edges, depth)
    decreases depth, |edges|
  {
    if edges != [] {
      ViaWithin(plan, edges[1..], depth);
      if IsGatewayIn(plan, edges[0].source) { TraceWithin(plan, edges[0].source, depth); }
      assert forall k | 0 < k < |edges| :: edges[k] == edges[1..][k - 1];
    }
  }

  lemma SourcesAreSuccessors(plan: ExecutionPlan, v: string, depth: nat)
    ensures SourcesWithin(plan, In(plan, v), depth) <==> forall w | w in Succ(Back(plan), v) :: WalksWithin(Back(plan), w, depth)
  {
    var edges := In(plan, v);
    if forall w | w in Succ(Back(plan), v) :: WalksWithin(Back(plan), w, depth) {
      forall k | 0 <= k < |edges| && IsGatewayIn(plan, edges[k].source) ensures WalksWithin(Back(plan), edges[k].source, depth) {
        assert edges[k].source in Succ(Back(plan), v);
      }
    }
    if SourcesWithin(plan, edges, depth) {
      forall w | w in Succ(Back(plan), v) ensures WalksWithin(Back(plan), w, depth) {
        var k :| 0 <= k < |edges| && edges[k].source == w;
      }
    }
  }

  /** The recursion stays within a depth exactly when all walks back through gateways do. */
  lemma {:induction false} TraceWithin(plan: ExecutionPlan, v: string, depth: nat)
    ensures TraceBack(plan, v, depth).Some? <==> WalksWithin(Back(plan), v, depth)
    decreases depth, 0
  {
    WithinBySources(plan, v, depth);
    TraceUnfolds(plan, v, depth);
    if depth > 0 { ViaWithin(plan, In(plan, v), depth - 1); }
  }

  lemma WithinBySources(plan: ExecutionPlan, v: string, depth: nat)
    ensures WalksWithin(Back(plan), v, depth) <==> depth > 0 && SourcesWithin(plan, In(plan, v), depth - 1)
  {
    WithinBySuccessors(Back(plan), v, depth);
    if depth > 0 { SourcesAreSuccessors(plan, v, depth - 1); }
  }

  lemma TraceUnfolds(plan: ExecutionPlan, v: string, depth: nat)
    ensures TraceBack(plan, v, depth).Some? <==> depth > 0 && TraceVia(plan, In(plan, v), depth - 1).Some?
  {
  }

  /** Where it stays within the depth, the recursion finds the preceding activities. */
  lemma {:induction false} TraceFinds(plan: ExecutionPlan, v: string, depth: nat)
    requires TraceBack(plan, v, depth).Some? && Ends(Back(plan), v)
    ensures TraceBack(plan, v, depth).value == PrecedingNodes(plan, v)
    decreases depth, 0
  {
    SourcesLower(plan, v);
    ViaFinds(plan, In(plan, v), depth - 1, Height(plan, v));
  }

  lemma {:induction false} ViaFinds(plan: ExecutionPlan, edges: seq<EdgeSpec>, depth: nat, bound: nat)
    requires TraceVia(plan, edges, depth).Some? && SourcesEnd(plan, edges, bound)
    ensures TraceVia(plan, edges, depth).value == PrecedingVia(plan, edges, bound)
    decreases depth, |edges|
  {
    if edges != [] {
      ViaFinds(plan, edges[1..], depth, bound);
      if IsGatewayIn(plan, edges[0].source) { TraceFinds(plan, edges[0].source, depth); }
    }
  }

  /** Tracing back from a node ends if and only if no cycle of gateways lies behind it, and then it finds the
      preceding activities. */
  lemma TraceEndsExactly(plan: ExecutionPlan, v: string)
    ensures forall depth: nat | TraceBack(plan, v, depth).Some? ::
      Ends(Back(plan), v) && TraceBack(plan, v, depth).value == PrecedingNodes(plan, v)
    ensures (exists depth: nat {:trigger TraceBack(plan, v, depth)} :: TraceBack(plan, v, depth).Some?) <==>
      Ends(Back(plan), v)
  {
    EndsExactly(Back(plan), v);
    if Ends(Back(plan), v) {
      var n: nat :| WalksWithin(Back(plan), v, n);
      TraceWithin(plan, v, n);
    }
    forall depth: nat | TraceBack(plan, v, depth).Some?
      ensures Ends(Back(plan), v) && TraceBack(plan, v, depth).value == PrecedingNodes(plan, v)
    {
      TraceWithin(plan, v, depth);
      assert WalksWithin(Back(plan), v, depth);
      TraceFinds(plan, v, depth);
    }
  }

  // ---------------------------------------------------------------- the approval upstream

  /** An edge that decides where a rejection falls back to: it comes from an approval or a gateway. */
  predicate Decisive(plan: ExecutionPlan, e: EdgeSpec) {
    e.source in plan.nodes && (plan.nodes[e.source].kind.Approval? || plan.nodes[e.source].IsGateway())
  }

  /** The first decisive edge. */
  function Deciding(plan: ExecutionPlan, edges: seq<EdgeSpec>): (k: nat)
    ensures k <= |edges| && (k < |edges| ==> Decisive(plan, edges[k]))
    ensures forall j | 0 <= j < k :: !Decisive(plan, edges[j])
  {
    if edges == [] || Decisive(plan, edges[0]) then 0 else 1 + Deciding(plan, edges[1..])
  }

  function Decider(plan: ExecutionPlan, v: string): Option<NodeSpec> {
    var k := Deciding(plan, In(plan, v));
    if k < |In(plan, v)| then Some(plan.nodes[In(plan, v)[k].source]) else None
  }

  function GatewayOf(n: Option<NodeSpec>): seq<string> {
    if n.Some? && n.value.IsGateway() then [n.value.id] else []
  }

  /** From a node to the gateway that decides for it. */
  function Decided(plan: ExecutionPlan): (g: Graph)
    requires Indexed(plan)
    ensures forall v :: Succ(g, v) == GatewayOf(Decider(plan, v))
  {
    map v | v in plan.inEdges :: GatewayOf(Decider(plan, v))
  }

  /** Nearest approval upstream: the first incoming edge from an approval or a gateway decides, a gateway by its own
      first such edge. */
  function UpstreamApproval(plan: ExecutionPlan, v: string): Option<NodeSpec>
    requires Indexed(plan) && Ends(Decided(plan), v)
    decreases |Ahead(Decided(plan), v)|
  {
    match Decider(plan, v)
    case None => None
    case Some(n) =>
      if n.kind.Approval? then Some(n)
      else
        assert n.id in Succ(Decided(plan), v);
        AheadShrinks(Decided(plan), v, n.id);
        UpstreamApproval(plan, n.id)
  }

  /** The trail of deciding gateways from `v`, followed to its end, leads to `r`. */
  ghost predicate TrailTo(plan: ExecutionPlan, v: string, p: seq<string>, r: Option<NodeSpec>)
    requires Indexed(plan)
  {
    && IsPath(Decided(plan), p) && p[0] == v && r == Decider(plan, p[|p| - 1])
    && (r.Some? ==> !r.value.IsGateway())
  }

  lemma {:induction false} TrailFound(plan: ExecutionPlan, v: string) returns (p: seq<string>)
    requires Indexed(plan) && Ends(Decided(plan), v)
    ensures TrailTo(plan, v, p, UpstreamApproval(plan, v))
    decreases |Ahead(Decided(plan), v)|
  {
    p := [v];
    var n := Decider(plan, v);
    if n.Some? && n.value.IsGateway() {
      assert n.value.id in Succ(Decided(plan), v);
      AheadShrinks(Decided(plan), v, n.value.id);
      var rest := TrailFound(plan, n.value.id);
      Prepended(Decided(plan), v, rest);
      p := [v] + rest;
    }
  }

  lemma {:induction false} TrailDecides(plan: ExecutionPlan, v: string, p: seq<string>, r: Option<NodeSpec>)
    requires Indexed(plan) && Ends(Decided(plan), v) && TrailTo(plan, v, p, r)
    ensures r == UpstreamApproval(plan, v)
    decreases |p|
  {
    if |p| > 1 {
      assert Hop(Decided(plan), p, 0);
      AheadShrinks(Decided(plan), v, p[1]);
      TailPath(Decided(plan), p);
      TrailDecides(plan, p[1], p[1..], r);
    }
  }

  /** What is found, an approval or nothing, is exactly what the trail of deciding gateways leads to; an approval
      found leads to the node through gateways only. */
  lemma UpstreamExactly(plan: ExecutionPlan, v: string, r: Option<NodeSpec>)
    requires Indexed(plan) && Ends(Decided(plan), v)
    ensures r == UpstreamApproval(plan, v) <==> exists p :: TrailTo(plan, v, p, r)
    ensures r == UpstreamApproval(plan, v) && r.Some? ==> r.value.kind.Approval? && Precedes(plan, v, r.value)
  {
    var p := TrailFound(plan, v);
    if exists q :: TrailTo(plan, v, q, r) {
      var q :| TrailTo(plan, v, q, r);
      TrailDecides(plan, v, q, r);
    }
    if r == UpstreamApproval(plan, v) && r.Some? { TrailPrecedes(plan, v, p, r.value); }
  }

  /** The first edge into `v` that comes from an approval or a gateway. */
  ghost predicate ComesFirst(plan: ExecutionPlan, v: string, k: nat) {
    k < |In(plan, v)| && FromApprovalOrGateway(plan, In(plan, v)[k])
    && forall j | 0 <= j < k :: !FromApprovalOrGateway(plan, In(plan, v)[j])
  }

  ghost predicate FromApprovalOrGateway(plan: ExecutionPlan, e: EdgeSpec) {
    e.source in plan.nodes &&
    var kind := plan.nodes[e.source].kind;
    kind == Approval || kind == Exclusive || kind == Parallel || kind == Inclusive
  }

  /** That edge alone decides: an approval is found at once, a gateway is searched in turn. Without one nothing is. */
  lemma UpstreamByFirstEdge(plan: ExecutionPlan, v: string)
    requires Indexed(plan) && Ends(Decided(plan), v)
    ensures (forall k: nat :: !ComesFirst(plan, v, k)) ==> UpstreamApproval(plan, v) == None
    ensures forall k: nat | ComesFirst(plan, v, k) :: var n := plan.nodes[In(plan, v)[k].source];
      if n.kind == Approval then UpstreamApproval(plan, v) == Some(n)
      else Ends(Decided(plan), n.id) && UpstreamApproval(plan, v) == UpstreamApproval(plan, n.id)
  {
    var edges := In(plan, v);
    var first := Deciding(plan, edges);
    assert first < |edges| ==> Decisive(plan, edges[first]);
    forall k: nat | ComesFirst(plan, v, k) ensures k == first {
      assert Decisive(plan, edges[k]);
    }
    if first < |edges| {
      assert ComesFirst(plan, v, first);
      var n := plan.nodes[edges[first].source];
      if n.kind != Approval {
        assert n.id in Succ(Decided(plan), v);
        AheadShrinks(Decided(plan), v, n.id);
      }
    }
  }

  lemma DeciderEnters(plan: ExecutionPlan, v: string)
    requires Indexed(plan) && Decider(plan, v).Some?
    ensures var n := Decider(plan, v).value;
      && (n.IsGateway() ==> n.id in Succ(Back(plan), v))
      && (!n.IsGateway() ==> n.kind.Approval? && EntersActivity(plan, v, n))
  {
    var k := Deciding(plan, In(plan, v));
    var e := In(plan, v)[k];
    assert Decisive(plan, e);
    if !plan.nodes[e.source].IsGateway() { assert ActivityAt(plan, e.source, plan.nodes[e.source]); }
  }

  lemma {:induction false} TrailPrecedes(plan: ExecutionPlan, v: string, p: seq<string>, n: NodeSpec)
    requires Indexed(plan) && TrailTo(plan, v, p, Some(n))
    ensures n.kind.Approval? && Precedes(plan, v, n)
  {
    forall k: nat | k + 1 < |p| ensures Hop(Back(plan), p, k) {
      assert Hop(Decided(plan), p, k);
      DeciderEnters(plan, p[k]);
    }
    assert Connects(Back(plan), p, v, p[|p| - 1]);
    DeciderEnters(plan, p[|p| - 1]);
  }

  lemma DecidedWithin(plan: ExecutionPlan, v: string)
    requires Indexed(plan) && Ends(Back(plan), v)
    ensures Ends(Decided(plan), v)
  {
    forall p | IsCycle(Decided(plan), p) ensures !Reaches(Decided(plan), v, p[0]) {
      DecidedPath(plan, p);
      if Reaches(Decided(plan), v, p[0]) {
        var q :| Connects(Decided(plan), q, v, p[0]);
        DecidedPath(plan, q);
        assert IsCycle(Back(plan), p) && Connects(Back(plan), q, v, p[0]);
      }
    }
  }

  lemma DecidedPath(plan: ExecutionPlan, p: seq<string>)
    requires Indexed(plan) && IsPath(Decided(plan), p)
    ensures IsPath(Back(plan), p)
  {
    forall k: nat | k + 1 < |p| ensures Hop(Back(plan), p, k) {
      assert Hop(Decided(plan), p, k);
      DeciderEnters(plan, p[k]);
    }
  }

  // ---------------------------------------------------------------- rankings and cycles of a definition

  /** Every gateway ranks above the gateways that lead to it. */
  ghost predicate GatewaysRanked(plan: ExecutionPlan, rank: string -> nat) {
    forall v, w {:trigger w in Succ(Back(plan), v)} | IsGatewayIn(plan, v) && w in Succ(Back(plan), v) ::
      rank(w) < rank(v)
  }

  lemma {:induction false} RankFalls(plan: ExecutionPlan, rank: string -> nat, p: seq<string>)
    requires GatewaysRanked(plan, rank) && IsPath(Back(plan), p) && IsGatewayIn(plan, p[0])
    ensures rank(p[|p| - 1]) + |p| - 1 <= rank(p[0])
  {
    if |p| > 1 {
      assert Hop(Back(plan), p, 0);
      TailPath(Back(plan), p);
      RankFalls(plan, rank, p[1..]);
    }
  }

  /** The gateways can be ranked if and only if they form no cycle. */
  lemma RankedExactly(plan: ExecutionPlan)
    ensures (exists rank {:trigger GatewaysRanked(plan, rank)} :: GatewaysRanked(plan, rank)) <==> GatewaysAcyclic(plan)
  {
    if exists rank :: GatewaysRanked(plan, rank) {
      var rank :| GatewaysRanked(plan, rank);
      forall p ensures !IsCycle(Back(plan), p) {
        if IsCycle(Back(plan), p) {
          assert Hop(Back(plan), p, |p| - 2);
          RankFalls(plan, rank, p);
        }
      }
    }
    if GatewaysAcyclic(plan) {
      var rank := v => Height(plan, v);
      forall v, w | IsGatewayIn(plan, v) && w in Succ(Back(plan), v) ensures rank(w) < rank(v) {
        AcyclicEnds(Back(plan), v);
        AheadShrinks(Back(plan), v, w);
      }
      assert GatewaysRanked(plan, rank);
    }
  }

  /** An edge of the definition leads from gateway `w` to `v`. */
  ghost predicate GatewayLink(def: Definition, v: string, w: string) {
    && (exists k :: 0 <= k < |def.edges| && def.edges[k].target == v && def.edges[k].source == w)
    && exists k :: 0 <= k < |def.nodes| && def.nodes[k].id == w && def.nodes[k].IsGateway()
  }

  /** Gateways in a ring, each entered from the next. */
  ghost predicate GatewayRing(def: Definition, p: seq<string>) {
    |p| > 1 && p[0] == p[|p| - 1] && forall k: nat {:trigger p[k + 1]} | k + 1 < |p| :: GatewayLink(def, p[k], p[k + 1])
  }

  ghost predicate NoGatewayRing(def: Definition) { forall p {:trigger GatewayRing(def, p)} :: !GatewayRing(def, p) }

  lemma CompiledLink(plan: ExecutionPlan, def: Definition, parse: string -> Option<string>, v: string, w: string)
    requires Compiles(plan, def, parse) && w in Succ(Back(plan), v)
    ensures GatewayLink(def, v, w)
  {
    var edges := In(plan, v);
    var k :| 0 <= k < |edges| && edges[k].source == w;
    LeavingExact(def.edges, v, parse, edges[k]);
    var n :| 0 <= n < |def.nodes| && def.nodes[n] == plan.nodes[w];
  }

  lemma GatewayCompiled(plan: ExecutionPlan, def: Definition, parse: string -> Option<string>, n: nat)
    requires Compiles(plan, def, parse) && DistinctNodes(def.nodes) && n < |def.nodes| && def.nodes[n].IsGateway()
    ensures IsGatewayIn(plan, def.nodes[n].id)
  {
    assert Declared(def, def.nodes[n].id);
    var i :| 0 <= i < |def.nodes| && def.nodes[i] == plan.nodes[def.nodes[n].id];
  }

  lemma LinkCompiled(plan: ExecutionPlan, def: Definition, parse: string -> Option<string>, k: nat, n: nat)
    requires Compiles(plan, def, parse) && DistinctNodes(def.nodes) && k < |def.edges| && n < |def.nodes|
    requires def.nodes[n].IsGateway() && def.nodes[n].id == def.edges[k].source
    ensures def.edges[k].source in Succ(Back(plan), def.edges[k].target)
  {
    var e := Normalized(def.edges[k], parse);
    var edges := In(plan, e.target);
    LeavingExact(def.edges, e.target, parse, e);
    var j :| 0 <= j < |edges| && edges[j] == e;
    GatewayCompiled(plan, def, parse, n);
  }

  lemma LinksCompiled(plan: ExecutionPlan, def: Definition, parse: string -> Option<string>, v: string, w: string)
    requires Compiles(plan, def, parse) && DistinctNodes(def.nodes)
    ensures w in Succ(Back(plan), v) <==> GatewayLink(def, v, w)
  {
    if w in Succ(Back(plan), v) { CompiledLink(plan, def, parse, v, w); }
    if GatewayLink(def, v, w) {
      var k :| 0 <= k < |def.edges| && def.edges[k].target == v && def.edges[k].source == w;
      var n :| 0 <= n < |def.nodes| && def.nodes[n].id == w && def.nodes[n].IsGateway();
      LinkCompiled(plan, def, parse, k, n);
    }
  }

  /** Whether gateways form a cycle can be read off the definition. */
  lemma RingsCompiled(plan: ExecutionPlan, def: Definition, parse: string -> Option<string>)
    requires Compiles(plan, def, parse) && DistinctNodes(def.nodes)
    ensures GatewaysAcyclic(plan) <==> NoGatewayRing(def)
  {
    forall p ensures IsCycle(Back(plan), p) <==> GatewayRing(def, p) {
      forall k: nat | k + 1 < |p| ensures Hop(Back(plan), p, k) <==> GatewayLink(def, p[k], p[k + 1]) {
        LinksCompiled(plan, def, parse, p[k], p[k + 1]);
      }
    }
  }

  // ---------------------------------------------------------------- validation admits gateway cycles

  function Link(s: string, t: string): EdgeSpec { EdgeSpec(s, t, "", None) }

  /** Start s, approval a, exclusive gateways g and h in a ring, parallel join j behind h and a, end e. */
  const RING := Definition(
    "k",
    [NodeSpec("s", Start, AllPass), NodeSpec("a", Approval, AllPass), NodeSpec("g", Exclusive, AllPass),
     NodeSpec("h", Exclusive, AllPass), NodeSpec("j", Parallel, AllPass), NodeSpec("e", End, AllPass)],
    [Link("s", "a"), Link("a", "g"), Link("g", "h"), Link("h", "g"), Link("h", "j"), Link("a", "j"), Link("j", "e")])

  lemma RingNodes()
    ensures DistinctNodes(RING.nodes) && forall k | 0 <= k < |RING.nodes| :: RING.nodes[k].id != ""
    ensures CountStarts(RING.nodes) == 1 && exists k :: 0 <= k < |RING.nodes| && RING.nodes[k].kind.End?
  {
    var n := RING.nodes;
    assert n[0].id[0] == 's' && n[1].id[0] == 'a' && n[2].id[0] == 'g' && n[3].id[0] == 'h' && n[4].id[0] == 'j' && n[5].id[0] == 'e';
    assert n[5].kind.End?;
    RingStarts(6);
    assert n[..6] == n;
  }

  lemma {:induction false} RingStarts(i: nat)
    requires 1 <= i <= 6
    ensures CountStarts(RING.nodes[..i]) == 1
  {
    var n := RING.nodes[..i];
    assert n[..i - 1] == RING.nodes[..i - 1];
    if i > 1 { RingStarts(i - 1); }
  }

  lemma RingEdge(k: nat)
    requires k < 7
    ensures EdgeSound(RING, RING.edges[k])
  {
    var n := RING.nodes;
    assert n[0].id == "s" && n[1].id == "a" && n[2].id == "g" && n[3].id == "h" && n[4].id == "j" && n[5].id == "e";
    assert "s"[0] == 's' && "a"[0] == 'a' && "g"[0] == 'g' && "h"[0] == 'h' && "j"[0] == 'j' && "e"[0] == 'e';
  }

  lemma RingDegree(k: nat)
    requires k < 6
    ensures DegreesSound(RING, RING.nodes[k])
  {
    var e := RING.edges;
    assert e[0] == Link("s", "a") && e[1] == Link("a", "g") && e[2] == Link("g", "h") && e[3] == Link("h", "g");
    assert e[4] == Link("h", "j") && e[5] == Link("a", "j") && e[6] == Link("j", "e");
    assert "s"[0] == 's' && "a"[0] == 'a' && "g"[0] == 'g' && "h"[0] == 'h' && "j"[0] == 'j' && "e"[0] == 'e';
    if k == 0 { assert Left(RING, "s"); }
    if k == 2 { assert Left(RING, "g") && Entered(RING, "g"); }
    if k == 3 { assert Left(RING, "h") && Entered(RING, "h"); }
    if k == 4 { assert Left(RING, "j") && Entered(RING, "j"); }
    if k == 5 { assert Entered(RING, "e"); }
  }

  lemma RingIsValid()
    ensures ValidDefinition(RING)
  {
    RingNodes();
    forall k | 0 <= k < |RING.edges| ensures EdgeSound(RING, RING.edges[k]) { RingEdge(k); }
    forall k | 0 <= k < |RING.nodes| ensures DegreesSound(RING, RING.nodes[k]) { RingDegree(k); }
  }

  lemma TwoRing(g: Graph, u: string, v: string)
    requires v in Succ(g, u) && u in Succ(g, v)
    ensures IsCycle(g, [u, v, u])
  {
    var p := [u, v, u];
    assert Hop(g, p, 0) && Hop(g, p, 1);
  }

  lemma RingSource(plan: ExecutionPlan, parse: string -> Option<string>, k: nat)
    requires Compiles(plan, RING, parse) && (k == 2 || k == 3)
    ensures RING.edges[k].source in Succ(Back(plan), RING.edges[k].target)
  {
    RingNodes();
    LinkCompiled(plan, RING, parse, k, k);
  }

  lemma RingLoops(plan: ExecutionPlan, parse: string -> Option<string>)
    requires Compiles(plan, RING, parse)
    ensures IsCycle(Back(plan), ["h", "g", "h"])
  {
    RingSource(plan, parse, 2);
    RingSource(plan, parse, 3);
    TwoRing(Back(plan), RING.edges[2].target, RING.edges[2].source);
  }

  lemma EnteringStep(edges: seq<EdgeSpec>, k: nat, id: string, parse: string -> Option<string>)
    requires k < |edges|
    ensures Entering(edges[..k + 1], id, parse) ==
      Entering(edges[..k], id, parse) + if edges[k].target == id then [Normalized(edges[k], parse)] else []
  {
    IndexStep(edges, k, id, parse);
  }

  lemma {:induction false} RingJoin(parse: string -> Option<string>, k: nat)
    requires k <= 7
    ensures Entering(RING.edges[..k], "j", parse) ==
      if k <= 4 then [] else if k == 5 then [Link("h", "j")] else [Link("h", "j"), Link("a", "j")]
  {
    if k > 0 {
      RingJoin(parse, k - 1);
      EnteringStep(RING.edges, k - 1, "j", parse);
      RingTarget(parse, k - 1);
    }
  }

  lemma RingTarget(parse: string -> Option<string>, k: nat)
    requires k < 7
    ensures RING.edges[k].target == "j" <==> k == 4 || k == 5
    ensures Normalized(RING.edges[k], parse) == RING.edges[k]
  {
    var e := RING.edges;
    assert e[0].target[0] == 'a' && e[1].target[0] == 'g' && e[2].target[0] == 'h' && e[3].target[0] == 'g' && e[6].target[0] == 'e';
  }

  /** A definition may pass validation although its gateways form a ring. Here the parallel join j has two incoming
      edges, the first from gateway h of the ring: judging the join traces back from h, and that recursion runs
      beyond every depth. */
  lemma ValidationAdmitsGatewayRings(plan: ExecutionPlan, parse: string -> Option<string>)
    requires Compiles(plan, RING, parse)
    ensures ValidDefinition(RING) && !NoGatewayRing(RING) && IsCycle(Back(plan), ["h", "g", "h"])
    ensures In(plan, "j") == [Link("h", "j"), Link("a", "j")] && "j" in plan.nodes && plan.nodes["j"].kind.Parallel?
    ensures IsGatewayIn(plan, "h") && forall depth: nat :: TraceBack(plan, "h", depth).None?
  {
    RingIsValid();
    RingRuns(plan, parse);
    RingInto(plan, parse);
    RingKinds(plan, parse);
  }

  lemma RingRuns(plan: ExecutionPlan, parse: string -> Option<string>)
    requires Compiles(plan, RING, parse)
    ensures !NoGatewayRing(RING) && IsCycle(Back(plan), ["h", "g", "h"])
    ensures forall depth: nat :: TraceBack(plan, "h", depth).None?
  {
    var p := ["h", "g", "h"];
    RingLoops(plan, parse);
    LoopsForever(plan, p);
    RingRefused(plan, parse, p);
  }

  lemma RingInto(plan: ExecutionPlan, parse: string -> Option<string>)
    requires Compiles(plan, RING, parse)
    ensures In(plan, "j") == [Link("h", "j"), Link("a", "j")]
  {
    RingJoin(parse, 7);
    assert RING.edges[..7] == RING.edges;
  }

  lemma LoopsForever(plan: ExecutionPlan, p: seq<string>)
    requires IsCycle(Back(plan), p)
    ensures forall depth: nat :: TraceBack(plan, p[0], depth).None?
  {
    ReachesSelf(Back(plan), p[0]);
    TraceEndsExactly(plan, p[0]);
  }

  lemma RingRefused(plan: ExecutionPlan, parse: string -> Option<string>, p: seq<string>)
    requires Compiles(plan, RING, parse) && IsCycle(Back(plan), p)
    ensures !NoGatewayRing(RING)
  {
    RingNodes();
    RingsCompiled(plan, RING, parse);
  }

  lemma RingKinds(plan: ExecutionPlan, parse: string -> Option<string>)
    requires Compiles(plan, RING, parse)
    ensures IsGatewayIn(plan, "h") && "j" in plan.nodes && plan.nodes["j"].kind.Parallel?
  {
    var n := RING.nodes;
    assert n[3].id == "h" && n[4].id == "j";
    assert Declared(RING, "h") && Declared(RING, "j");
    assert n[0].id[0] == 's' && n[1].id[0] == 'a' && n[2].id[0] == 'g' && n[3].id[0] == 'h' && n[4].id[0] == 'j' && n[5].id[0] == 'e';
    assert plan.nodes["h"] in n && plan.nodes["j"] in n;
  }
}
