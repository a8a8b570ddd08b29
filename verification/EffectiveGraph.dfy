/** The engine's node model, and the graph the engine service draws with the proxy nodes left out. */
module EffectiveGraph {
  import opened Prelude
  import opened Graphs

  datatype EngineKind = RootNode | TaskNode | GatewayNode | FinalNode

  datatype Guard = Guard(expression: string, nodeId: string)

  /** A node of the generated process; the last three fields are the gateway configuration. */
  datatype EngineNode = EngineNode(
    id: string, kind: EngineKind, prevs: seq<string>, users: seq<string>, cosigned: bool,
    conditions: seq<Guard>, inevitable: seq<string>, waitForAll: int)

  type NodeMap = map<string, EngineNode>

  const SYS_AUTO := "sys_auto"

  predicate IsProxy(n: EngineNode) { SYS_AUTO in n.users }

  predicate ProxyIn(m: NodeMap, v: string) { v in m && IsProxy(m[v]) }

  predicate RealIn(m: NodeMap, v: string) { v in m && !IsProxy(m[v]) }

  predicate Precedes(m: NodeMap, u: string, v: string) { v in m && u in m[v].prevs }

  // ---------------------------------------------------------------- what collapsing the proxies means

  /** `c` leads from one real node to another through proxy nodes only. */
  ghost predicate Chain(m: NodeMap, c: seq<string>) {
    && |c| > 1 && RealIn(m, c[0])
    && (forall i | 0 <= i < |c| - 1 :: Precedes(m, c[i], c[i + 1]))
    && (forall i | 0 < i < |c| - 1 :: ProxyIn(m, c[i]))
  }

  /** A real node `u` feeds `v`, directly or through proxy nodes. */
  ghost predicate Feeds(m: NodeMap, u: string, v: string) {
    exists c :: Chain(m, c) && c[0] == u && c[|c| - 1] == v
  }

  ghost predicate EffectiveEdge(m: NodeMap, u: string, v: string) {
    RealIn(m, v) && Feeds(m, u, v)
  }

  lemma FeedsDirectly(m: NodeMap, u: string, v: string)
    requires RealIn(m, u) && Precedes(m, u, v)
    ensures Feeds(m, u, v)
  {
    assert Chain(m, [u, v]);
  }

  lemma FeedsThrough(m: NodeMap, u: string, p: string, v: string)
    requires ProxyIn(m, p) && Feeds(m, u, p) && Precedes(m, p, v)
    ensures Feeds(m, u, v)
  {
    var c :| Chain(m, c) && c[0] == u && c[|c| - 1] == p;
    var d := c + [v];
    assert Chain(m, d);
  }

  /** The last step of a chain comes from the feeding node itself or from a proxy it feeds. */
  lemma LastStep(m: NodeMap, u: string, v: string) returns (p: string)
    requires Feeds(m, u, v)
    ensures RealIn(m, u) && Precedes(m, p, v) && (p == u || (ProxyIn(m, p) && Feeds(m, u, p)))
  {
    var c :| Chain(m, c) && c[0] == u && c[|c| - 1] == v;
    p := c[|c| - 2];
    assert Precedes(m, c[|c| - 2], c[|c| - 1]);
    if |c| > 2 {
      assert Chain(m, c[..|c| - 1]);
    }
  }

  // ---------------------------------------------------------------- collapsing the proxies

  /** No proxy precedes itself through proxies. */
  ghost predicate ProxiesRanked(m: NodeMap, rank: string -> nat) {
    forall p, q | ProxyIn(m, p) && ProxyIn(m, q) && Precedes(m, q, p) :: rank(q) < rank(p)
  }

  ghost predicate Below(m: NodeMap, rank: string -> nat, prevs: seq<string>, bound: nat) {
    forall p | p in prevs && ProxyIn(m, p) :: rank(p) < bound
  }

  /** The real nodes behind a list of predecessors; predecessors without a node are skipped. */
  function ResolveRealPrevs(m: NodeMap, prevs: seq<string>, ghost rank: string -> nat, ghost bound: nat): seq<string>
    requires ProxiesRanked(m, rank) && Below(m, rank, prevs, bound)
    decreases bound, |prevs|
  {
    if prevs == [] then [] else
    var p := prevs[0];
    (if p !in m then []
     else if IsProxy(m[p]) then ResolveRealPrevs(m, ProxyPrevs(m, p, rank), rank, rank(p))
     else [p])
    + ResolveRealPrevs(m, prevs[1..], rank, bound)
  }

  function ProxyPrevs(m: NodeMap, p: string, ghost rank: string -> nat): (prevs: seq<string>)
    requires ProxiesRanked(m, rank) && ProxyIn(m, p)
    ensures prevs == m[p].prevs && Below(m, rank, prevs, rank(p))
  {
    assert forall q | q in m[p].prevs :: Precedes(m, q, p);
    m[p].prevs
  }

  ghost predicate Behind(m: NodeMap, prevs: seq<string>, u: string) {
    exists p :: p in prevs && ((p == u && RealIn(m, u)) || (ProxyIn(m, p) && Feeds(m, u, p)))
  }

  lemma BehindProxy(m: NodeMap, p: string, u: string)
    requires ProxyIn(m, p)
    ensures Behind(m, m[p].prevs, u) <==> Feeds(m, u, p)
  {
    if Behind(m, m[p].prevs, u) {
      var q :| q in m[p].prevs && ((q == u && RealIn(m, u)) || (ProxyIn(m, q) && Feeds(m, u, q)));
      assert Precedes(m, q, p);
      if q == u && RealIn(m, u) { FeedsDirectly(m, u, p); } else { FeedsThrough(m, u, q, p); }
    }
    if Feeds(m, u, p) {
      var q := LastStep(m, u, p);
    }
  }

  lemma BehindFront(m: NodeMap, prevs: seq<string>, u: string)
    requires |prevs| > 0
    ensures Behind(m, prevs, u) <==> Behind(m, [prevs[0]], u) || Behind(m, prevs[1..], u)
  {
    assert prevs == [prevs[0]] + prevs[1..];
    assert forall p :: p in prevs <==> p in [prevs[0]] || p in prevs[1..];
  }

  lemma BehindOne(m: NodeMap, p: string, u: string)
    ensures Behind(m, [p], u) <==> (p == u && RealIn(m, u)) || (ProxyIn(m, p) && Feeds(m, u, p))
  {
    assert p in [p];
  }

  lemma {:induction false} ResolvedAreBehind(m: NodeMap, prevs: seq<string>, rank: string -> nat, bound: nat, u: string)
    requires ProxiesRanked(m, rank) && Below(m, rank, prevs, bound)
    ensures u in ResolveRealPrevs(m, prevs, rank, bound) <==> Behind(m, prevs, u)
    decreases bound, |prevs|
  {
    if prevs != [] {
      var p := prevs[0];
      BehindFront(m, prevs, u);
      BehindOne(m, p, u);
      ResolvedAreBehind(m, prevs[1..], rank, bound, u);
      if ProxyIn(m, p) {
        ResolvedAreBehind(m, ProxyPrevs(m, p, rank), rank, rank(p), u);
        BehindProxy(m, p, u);
      }
    }
  }

  lemma BehindReal(m: NodeMap, v: string, u: string)
    requires RealIn(m, v)
    ensures Behind(m, m[v].prevs, u) <==> EffectiveEdge(m, u, v)
  {
    if Behind(m, m[v].prevs, u) {
      var q :| q in m[v].prevs && ((q == u && RealIn(m, u)) || (ProxyIn(m, q) && Feeds(m, u, q)));
      assert Precedes(m, q, v);
      if q == u && RealIn(m, u) { FeedsDirectly(m, u, v); } else { FeedsThrough(m, u, q, v); }
    }
    if Feeds(m, u, v) {
      var q := LastStep(m, u, v);
    }
  }

  function UniqueAppend(g: Graph, key: string, value: string): (r: Graph)
    ensures forall k, w :: w in Succ(r, k) <==> w in Succ(g, k) || (k == key && w == value)
  {
    if value in Succ(g, key) then g else g[key := Succ(g, key) + [value]]
  }

  lemma AppendTidy(g: Graph, key: string, value: string)
    requires Tidy(g)
    ensures Tidy(UniqueAppend(g, key, value))
  {
    var r := UniqueAppend(g, key, value);
    forall k ensures Distinct(Succ(r, k)) {
      assert Distinct(Succ(g, k));
      assert k == key && value !in Succ(g, key) ==> Succ(r, k) == Succ(g, key) + [value];
      assert Distinct(Succ(g, key));
    }
  }

  /** No successor list holds a duplicate, and none is stored empty. */
  ghost predicate Tidy(g: Graph) {
    (forall k :: Distinct(Succ(g, k))) && (forall k | k in g :: g[k] != [])
  }

  ghost predicate CoversNodes(g: Graph, m: NodeMap, done: set<string>) {
    forall u, v :: v in Succ(g, u) <==> v in done && EffectiveEdge(m, u, v)
  }

  /** Adds the edges into one node. */
  method AddInEdges(m: NodeMap, graph: Graph, id: string, realPrevs: seq<string>, ghost done: set<string>)
    returns (r: Graph)
    requires CoversNodes(graph, m, done) && Tidy(graph) && id !in done
    requires forall u :: u in realPrevs <==> EffectiveEdge(m, u, id)
    ensures CoversNodes(r, m, done + {id}) && Tidy(r)
  {
    r := graph;
    for k := 0 to |realPrevs|
      invariant Tidy(r)
      invariant forall u, v :: v in Succ(r, u) <==> v in Succ(graph, u) || (v == id && u in realPrevs[..k])
    {
      assert realPrevs[..k + 1] == realPrevs[..k] + [realPrevs[k]];
      AppendTidy(r, realPrevs[k], id);
      r := UniqueAppend(r, realPrevs[k], id);
    }
    assert realPrevs[..|realPrevs|] == realPrevs;
  }

  /** The drawn graph: real nodes only, with an edge wherever one real node feeds another. */
  method BuildEffectiveGraph(m: NodeMap, keys: seq<string>, ghost rank: string -> nat) returns (graph: Graph)
    requires ProxiesRanked(m, rank)
    requires Distinct(keys) && forall v :: v in keys <==> v in m
    ensures forall u, v :: v in Succ(graph, u) <==> EffectiveEdge(m, u, v)
    ensures Tidy(graph)
  {
    graph := map[];
    ghost var done: set<string> := {};
    for k := 0 to |keys|
      invariant Tidy(graph) && CoversNodes(graph, m, done)
      invariant forall v :: v in done <==> v in keys[..k] && RealIn(m, v)
    {
      var id := keys[k];
      assert keys[..k + 1] == keys[..k] + [id] && id !in keys[..k];
      if !IsProxy(m[id]) {
        ghost var bound := RankBound(m, m[id].prevs, rank);
        var realPrevs := ResolveRealPrevs(m, m[id].prevs, rank, bound);
        forall u ensures u in realPrevs <==> EffectiveEdge(m, u, id) {
          ResolvedAreBehind(m, m[id].prevs, rank, bound, u);
          BehindReal(m, id, u);
        }
        graph := AddInEdges(m, graph, id, realPrevs, done);
        done := done + {id};
      }
    }
    assert keys[..|keys|] == keys;
  }

  ghost function RankBound(m: NodeMap, prevs: seq<string>, rank: string -> nat): (bound: nat)
    ensures Below(m, rank, prevs, bound)
  {
    if prevs == [] then 0 else
    var rest := RankBound(m, prevs[1..], rank);
    if rank(prevs[0]) < rest then rest else rank(prevs[0]) + 1
  }
}
