/** Which node of the converted process ends up under which id, however the generated names fall. */
module CanvasNames {
  import opened Prelude
  import opened Graphs
  import opened CanvasModel
  import opened EffectiveGraph
  import opened CanvasConverter

  /** `nodes` lists every canvas node once. */
  ghost predicate DrawnOnce(ctx: Context, nodes: seq<Node>) {
    && (forall i, j | 0 <= i < j < |nodes| :: nodes[i].id != nodes[j].id)
    && (forall k | 0 <= k < |nodes| :: nodes[k].id in ctx.nodes && ctx.nodes[nodes[k].id] == nodes[k])
    && (forall id | id in ctx.nodes :: ctx.nodes[id] in nodes)
  }

  lemma IndexedOnce(ctx: Context, nodes: seq<Node>, edges: seq<Edge>)
    requires Indexes(ctx, nodes, edges) && forall i, j | 0 <= i < j < |nodes| :: nodes[i].id != nodes[j].id
    ensures DrawnOnce(ctx, nodes)
  {
    forall k | 0 <= k < |nodes| ensures nodes[k].id in ctx.nodes && ctx.nodes[nodes[k].id] == nodes[k] {
      assert nodes[k].id in ctx.nodes;
      assert ctx.nodes[nodes[k].id] in nodes;
    }
  }

  lemma NodeDrawn(ctx: Context, nodes: seq<Node>, v: string) returns (k: nat)
    requires DrawnOnce(ctx, nodes) && v in ctx.nodes
    ensures k < |nodes| && nodes[k] == ctx.nodes[v] && nodes[k].id in ctx.nodes && ctx.nodes[nodes[k].id] == nodes[k]
  {
    assert ctx.nodes[v] in nodes;
    k :| 0 <= k < |nodes| && nodes[k] == ctx.nodes[v];
  }

  // ---------------------------------------------------------------- which edges get proxies

  /** An edge between gateways that gets a proxy. */
  ghost predicate ProxyEdge(ctx: Context, s: string, t: string) {
    t in Targets(ctx, s) && Gateway(KindOf(ctx, s)) && KindOf(ctx, t).Splitting()
  }

  lemma {:induction false} TargetPairsExact(ctx: Context, s: string, edges: seq<Edge>)
    ensures forall q :: q in TargetPairs(ctx, s, edges) <==>
      q.0 == s && KindOf(ctx, q.1).Splitting() && q.1 in TargetsOf(edges)
  {
    if edges != [] {
      var rest, last := edges[..|edges| - 1], edges[|edges| - 1];
      TargetPairsExact(ctx, s, rest);
      assert TargetsOf(edges) == TargetsOf(rest) + [last.target];
    }
  }

  lemma {:induction false} SourcePairsExact(ctx: Context, t: string, prevs: seq<string>)
    ensures forall q :: q in SourcePairs(ctx, t, prevs) <==> q.1 == t && KindOf(ctx, q.0).Condition? && q.0 in prevs
  {
    if prevs != [] {
      var rest, last := prevs[..|prevs| - 1], prevs[|prevs| - 1];
      SourcePairsExact(ctx, t, rest);
      assert prevs == rest + [last];
    }
  }

  lemma PairsAreProxyEdges(ctx: Context, n: Node)
    requires WellBuilt(ctx) && n.id in ctx.nodes && ctx.nodes[n.id] == n
    ensures forall q | q in ProxyPairs(ctx, n) :: ProxyEdge(ctx, q.0, q.1)
    ensures forall t | ProxyEdge(ctx, n.id, t) :: (n.id, t) in ProxyPairs(ctx, n)
  {
    TargetPairsExact(ctx, n.id, OutEdges(ctx, n.id));
    SourcePairsExact(ctx, n.id, Prevs(ctx, n.id));
    IndexesReverse(ctx);
    forall q | q in SourcePairs(ctx, n.id, Prevs(ctx, n.id)) ensures q.1 in Targets(ctx, q.0) {
      assert q.0 in Succ(BackwardGraph(ctx), q.1);
      assert q.1 in Succ(ForwardGraph(ctx), q.0);
    }
  }

  // ---------------------------------------------------------------- the names in the order they are asked for

  /** The edges for which the first `n` nodes ask for a proxy, in the order they ask. */
  function Asked(ctx: Context, nodes: seq<Node>, n: nat): seq<(string, string)>
    requires n <= |nodes|
  {
    if n == 0 then [] else Asked(ctx, nodes, n - 1) + ProxyPairs(ctx, nodes[n - 1])
  }

  predicate Named(pairs: seq<(string, string)>, id: string) {
    exists q :: q in pairs && ProxyId(q.0, q.1) == id
  }

  /** The edge that asks first for a proxy of this name, and so gets it. */
  function First(pairs: seq<(string, string)>, id: string): (q: (string, string))
    requires Named(pairs, id)
    ensures q in pairs && ProxyId(q.0, q.1) == id
  {
    var rest, last := pairs[..|pairs| - 1], pairs[|pairs| - 1];
    assert pairs == rest + [last];
    if Named(rest, id) then First(rest, id) else last
  }

  lemma NamedAppended(pairs: seq<(string, string)>, q: (string, string), id: string)
    ensures Named(pairs + [q], id) <==> Named(pairs, id) || ProxyId(q.0, q.1) == id
    ensures Named(pairs, id) ==> First(pairs + [q], id) == First(pairs, id)
    ensures !Named(pairs, id) && ProxyId(q.0, q.1) == id ==> First(pairs + [q], id) == q
  {
    assert forall x :: x in pairs + [q] <==> x in pairs || x == q;
    assert (pairs + [q])[..|pairs|] == pairs;
  }

  lemma {:induction false} NamedJoined(a: seq<(string, string)>, b: seq<(string, string)>, id: string)
    ensures Named(a + b, id) <==> Named(a, id) || Named(b, id)
    ensures Named(a, id) ==> First(a + b, id) == First(a, id)
  {
    if b == [] {
      assert a + b == a;
    } else {
      var rest, last := b[..|b| - 1], b[|b| - 1];
      NamedJoined(a, rest, id);
      assert a + b == (a + rest) + [last] && b == rest + [last];
      NamedAppended(a + rest, last, id);
      NamedAppended(rest, last, id);
    }
  }

  lemma {:induction false} AskedGrows(ctx: Context, nodes: seq<Node>, k: nat, n: nat)
    requires k <= n <= |nodes|
    ensures Asked(ctx, nodes, k) <= Asked(ctx, nodes, n)
    decreases n - k
  {
    if k < n {
      AskedGrows(ctx, nodes, k, n - 1);
    }
  }

  lemma StaysNamed(ctx: Context, nodes: seq<Node>, k: nat, n: nat, id: string)
    requires k <= n <= |nodes| && Named(Asked(ctx, nodes, k), id)
    ensures Named(Asked(ctx, nodes, n), id) && First(Asked(ctx, nodes, n), id) == First(Asked(ctx, nodes, k), id)
  {
    AskedGrows(ctx, nodes, k, n);
    var a, b := Asked(ctx, nodes, k), Asked(ctx, nodes, n);
    NamedJoined(a, b[|a|..], id);
    assert b == a + b[|a|..];
  }

  /** Every edge asked for needs a proxy. */
  lemma {:induction false} AskedNeed(ctx: Context, nodes: seq<Node>, n: nat, q: (string, string))
    requires WellBuilt(ctx) && DrawnOnce(ctx, nodes) && n <= |nodes| && q in Asked(ctx, nodes, n)
    ensures ProxyEdge(ctx, q.0, q.1)
  {
    if n > 0 {
      if q in Asked(ctx, nodes, n - 1) {
        AskedNeed(ctx, nodes, n - 1, q);
      } else {
        PairsAreProxyEdges(ctx, nodes[n - 1]);
        assert q in ProxyPairs(ctx, nodes[n - 1]);
      }
    }
  }

  lemma AsksFor(ctx: Context, nodes: seq<Node>, k: nat, t: string)
    requires WellBuilt(ctx) && DrawnOnce(ctx, nodes) && k < |nodes| && ProxyEdge(ctx, nodes[k].id, t)
    ensures Named(AllAsked(ctx, nodes), ProxyId(nodes[k].id, t))
  {
    PairsAreProxyEdges(ctx, nodes[k]);
    assert (nodes[k].id, t) in Asked(ctx, nodes, k + 1);
    StaysNamed(ctx, nodes, k + 1, |nodes|, ProxyId(nodes[k].id, t));
  }

  /** All edges for which a proxy is asked, in the order of the drawing. */
  function AllAsked(ctx: Context, nodes: seq<Node>): seq<(string, string)> { Asked(ctx, nodes, |nodes|) }

  // ---------------------------------------------------------------- what is stored under an id

  /** The engine service's index of the process nodes. */
  function KeyById(nodes: seq<EngineNode>): NodeMap {
    if nodes == [] then map[] else
    var last := nodes[|nodes| - 1];
    KeyById(nodes[..|nodes| - 1])[last.id := last]
  }

  lemma KeyedAppended(nodes: seq<EngineNode>, e: EngineNode)
    ensures KeyById(nodes + [e]) == KeyById(nodes)[e.id := e]
  {
    assert (nodes + [e])[..|nodes|] == nodes;
  }

  /** Drawing the first `n` nodes, node `k` is still stored under its own id: no proxy made later took it. */
  predicate Keeps(ctx: Context, nodes: seq<Node>, k: nat, n: nat)
    requires k < n <= |nodes|
  {
    Named(Asked(ctx, nodes, n), nodes[k].id) ==> Named(Asked(ctx, nodes, k + 1), nodes[k].id)
  }

  ghost predicate KeptBy(ctx: Context, nodes: seq<Node>, n: nat, id: string)
    requires n <= |nodes|
  {
    exists k :: 0 <= k < n && nodes[k].id == id && Keeps(ctx, nodes, k, n)
  }

  /** Under `id` stands the canvas node that keeps it, else the proxy that was asked for first, else nothing. */
  ghost predicate Holds(ctx: Context, nodes: seq<Node>, n: nat, m: NodeMap, id: string)
    requires n <= |nodes|
  {
    && (KeptBy(ctx, nodes, n, id) ==> id in ctx.nodes && id in m && m[id] == Image(ctx, ctx.nodes[id]))
    && (!KeptBy(ctx, nodes, n, id) && Named(Asked(ctx, nodes, n), id) ==>
          var q := First(Asked(ctx, nodes, n), id); id in m && m[id] == ProxyNode(q.0, q.1))
    && (!KeptBy(ctx, nodes, n, id) && !Named(Asked(ctx, nodes, n), id) ==> id !in m)
  }

  predicate SameUnder(m: NodeMap, m': NodeMap, id: string) {
    (id in m <==> id in m') && (id in m && id in m' ==> m'[id] == m[id])
  }

  lemma {:induction false} ProxiesHeld(out: Output, asked: seq<(string, string)>, pairs: seq<(string, string)>, id: string)
    requires id in out.proxies <==> Named(asked, id)
    ensures var after, m := AddProxies(out, pairs), KeyById(AddProxies(out, pairs).nodes);
      && (id in after.proxies <==> Named(asked + pairs, id))
      && (Named(asked, id) || !Named(asked + pairs, id) ==> SameUnder(KeyById(out.nodes), m, id))
      && (!Named(asked, id) && Named(asked + pairs, id) ==>
            var q := First(asked + pairs, id); id in m && m[id] == ProxyNode(q.0, q.1))
  {
    if pairs == [] {
      assert asked + pairs == asked;
    } else {
      var rest, last := pairs[..|pairs| - 1], pairs[|pairs| - 1];
      ProxiesHeld(out, asked, rest, id);
      assert asked + pairs == (asked + rest) + [last];
      NamedAppended(asked + rest, last, id);
      NamedJoined(asked, rest, id);
      KeyedAppended(AddProxies(out, rest).nodes, ProxyNode(last.0, last.1));
    }
  }

  /** Node `n` is not the first to ask for this name. */
  predicate NotTaken(ctx: Context, nodes: seq<Node>, n: nat, id: string)
    requires n < |nodes|
  {
    Named(Asked(ctx, nodes, n), id) || !Named(Asked(ctx, nodes, n + 1), id)
  }

  lemma KeepsFor(ctx: Context, nodes: seq<Node>, k: nat, n: nat)
    requires k < n < |nodes|
    ensures Keeps(ctx, nodes, k, n + 1) <==> Keeps(ctx, nodes, k, n) && NotTaken(ctx, nodes, n, nodes[k].id)
  {
    var id := nodes[k].id;
    if Named(Asked(ctx, nodes, k + 1), id) { StaysNamed(ctx, nodes, k + 1, n, id); }
    if Named(Asked(ctx, nodes, n), id) { StaysNamed(ctx, nodes, n, n + 1, id); }
  }

  lemma KeptNext(ctx: Context, nodes: seq<Node>, n: nat, id: string)
    requires DrawnOnce(ctx, nodes) && n < |nodes|
    ensures id == nodes[n].id ==> KeptBy(ctx, nodes, n + 1, id)
    ensures id != nodes[n].id ==> (KeptBy(ctx, nodes, n + 1, id) <==> KeptBy(ctx, nodes, n, id) && NotTaken(ctx, nodes, n, id))
  {
    if KeptBy(ctx, nodes, n + 1, id) {
      var k :| 0 <= k < n + 1 && nodes[k].id == id && Keeps(ctx, nodes, k, n + 1);
      if k < n { KeepsFor(ctx, nodes, k, n); }
    }
    if id == nodes[n].id { assert Keeps(ctx, nodes, n, n + 1); }
    if KeptBy(ctx, nodes, n, id) {
      var k :| 0 <= k < n && nodes[k].id == id && Keeps(ctx, nodes, k, n);
      KeepsFor(ctx, nodes, k, n);
    }
  }

  lemma HeldNext(ctx: Context, nodes: seq<Node>, n: nat, out: Output, id: string)
    requires DrawnOnce(ctx, nodes) && n < |nodes| && HoldsUpTo(ctx, nodes, n, out, id)
    ensures HoldsUpTo(ctx, nodes, n + 1, AddNode(ctx, out, nodes[n]), id)
  {
    var asked, pairs := Asked(ctx, nodes, n), ProxyPairs(ctx, nodes[n]);
    ProxiesHeld(out, asked, pairs, id);
    KeyedAppended(AddProxies(out, pairs).nodes, Image(ctx, nodes[n]));
    KeptNext(ctx, nodes, n, id);
    NamedJoined(asked, pairs, id);
  }

  lemma ConvertedBefore(ctx: Context, nodes: seq<Node>, k: nat)
    requires 0 < k <= |nodes| && Converted(ctx, nodes[..k]).Ok?
    ensures Converted(ctx, nodes[..k - 1]).Ok? && nodes[..k] == nodes[..k - 1] + [nodes[k - 1]]
    ensures Converted(ctx, nodes[..k]).value == AddNode(ctx, Converted(ctx, nodes[..k - 1]).value, nodes[k - 1])
  {
    var upTo := nodes[..k];
    assert upTo[..|upTo| - 1] == nodes[..k - 1] && upTo[|upTo| - 1] == nodes[k - 1];
    assert upTo == nodes[..k - 1] + [nodes[k - 1]];
  }

  ghost predicate HoldsUpTo(ctx: Context, nodes: seq<Node>, n: nat, out: Output, id: string)
    requires n <= |nodes|
  {
    (id in out.proxies <==> Named(Asked(ctx, nodes, n), id)) && Holds(ctx, nodes, n, KeyById(out.nodes), id)
  }

  lemma HeldAtFirst(ctx: Context, nodes: seq<Node>, id: string)
    ensures HoldsUpTo(ctx, nodes, 0, Output([], {}), id)
  {
  }

  lemma {:induction false} HeldUpTo(ctx: Context, nodes: seq<Node>, n: nat, id: string)
    requires DrawnOnce(ctx, nodes) && n <= |nodes| && Converted(ctx, nodes[..n]).Ok?
    ensures HoldsUpTo(ctx, nodes, n, Converted(ctx, nodes[..n]).value, id)
  {
    if n == 0 {
      assert nodes[..0] == [];
      HeldAtFirst(ctx, nodes, id);
    } else {
      ConvertedBefore(ctx, nodes, n);
      HeldUpTo(ctx, nodes, n - 1, id);
      HeldNext(ctx, nodes, n - 1, Converted(ctx, nodes[..n - 1]).value, id);
    }
  }

  // ---------------------------------------------------------------- the finished process

  /** The index of the finished process. */
  function ProcessOf(ctx: Context, nodes: seq<Node>): NodeMap
    requires Converted(ctx, nodes).Ok?
  {
    KeyById(Converted(ctx, nodes).value.nodes)
  }

  /** Canvas node `k` is the one that keeps its id. */
  predicate KeepsId(ctx: Context, nodes: seq<Node>, k: nat)
    requires k < |nodes|
  {
    Keeps(ctx, nodes, k, |nodes|)
  }

  /** Under every id of the process stands a canvas node that keeps it or the first proxy of that name. */
  lemma ProcessHolds(ctx: Context, nodes: seq<Node>, id: string)
    requires DrawnOnce(ctx, nodes) && Converted(ctx, nodes).Ok?
    ensures Holds(ctx, nodes, |nodes|, ProcessOf(ctx, nodes), id)
  {
    assert nodes[..|nodes|] == nodes;
    HeldUpTo(ctx, nodes, |nodes|, id);
  }

  lemma NodeHeld(ctx: Context, nodes: seq<Node>, k: nat)
    requires DrawnOnce(ctx, nodes) && Converted(ctx, nodes).Ok? && k < |nodes|
    ensures nodes[k].id in ProcessOf(ctx, nodes)
    ensures KeepsId(ctx, nodes, k) ==> ProcessOf(ctx, nodes)[nodes[k].id] == Image(ctx, nodes[k])
    ensures !KeepsId(ctx, nodes, k) ==> IsProxy(ProcessOf(ctx, nodes)[nodes[k].id])
  {
    ProcessHolds(ctx, nodes, nodes[k].id);
  }

  lemma NameHeld(ctx: Context, nodes: seq<Node>, id: string)
    requires DrawnOnce(ctx, nodes) && Converted(ctx, nodes).Ok? && id !in ctx.nodes
    ensures var m, asked := ProcessOf(ctx, nodes), AllAsked(ctx, nodes);
      (id in m <==> Named(asked, id)) && (id in m ==> m[id] == ProxyNode(First(asked, id).0, First(asked, id).1))
  {
    ProcessHolds(ctx, nodes, id);
  }

  // ---------------------------------------------------------------- distinct ids

  ghost predicate DistinctIds(nodes: seq<EngineNode>) {
    forall i, j | 0 <= i < j < |nodes| :: nodes[i].id != nodes[j].id
  }

  /** Every id is that of one of the first `n` canvas nodes or was asked for. */
  ghost predicate IdsKnown(made: seq<EngineNode>, ids: set<string>, asked: seq<(string, string)>) {
    forall i | 0 <= i < |made| :: made[i].id in ids || Named(asked, made[i].id)
  }

  ghost predicate Apart(ids: set<string>, asked: seq<(string, string)>) {
    forall q | q in asked :: ProxyId(q.0, q.1) !in ids
  }

  lemma {:induction false} ProxiesApart(out: Output, ids: set<string>, asked: seq<(string, string)>, pairs: seq<(string, string)>)
    requires DistinctIds(out.nodes) && IdsKnown(out.nodes, ids, asked) && Apart(ids, asked + pairs)
    requires forall id :: id in out.proxies <==> Named(asked, id)
    ensures var after := AddProxies(out, pairs);
      && DistinctIds(after.nodes) && IdsKnown(after.nodes, ids, asked + pairs)
      && forall id :: id in after.proxies <==> Named(asked + pairs, id)
  {
    if pairs == [] {
      assert asked + pairs == asked;
    } else {
      var rest, last := pairs[..|pairs| - 1], pairs[|pairs| - 1];
      assert asked + pairs == (asked + rest) + [last];
      assert Apart(ids, asked + rest) by { assert forall q | q in asked + rest :: q in asked + pairs; }
      ProxiesApart(out, ids, asked, rest);
      assert last in asked + pairs;
      forall id { NamedAppended(asked + rest, last, id); }
    }
  }

  function FirstIds(nodes: seq<Node>, n: nat): set<string>
    requires n <= |nodes|
  {
    set k | 0 <= k < n :: nodes[k].id
  }

  lemma NodeApart(ctx: Context, nodes: seq<Node>, n: nat, made: seq<EngineNode>, asked: seq<(string, string)>)
    requires DrawnOnce(ctx, nodes) && n < |nodes| && Apart(ctx.nodes.Keys, asked)
    requires DistinctIds(made) && IdsKnown(made, FirstIds(nodes, n), asked)
    ensures var more := made + [Image(ctx, nodes[n])]; DistinctIds(more) && IdsKnown(more, FirstIds(nodes, n + 1), asked)
  {
    assert FirstIds(nodes, n + 1) == FirstIds(nodes, n) + {nodes[n].id};
    forall i | 0 <= i < |made| ensures made[i].id != nodes[n].id {
      if Named(asked, made[i].id) { assert First(asked, made[i].id) in asked; }
    }
  }

  lemma DistinctNext(ctx: Context, nodes: seq<Node>, n: nat, out: Output)
    requires DrawnOnce(ctx, nodes) && n < |nodes| && Apart(ctx.nodes.Keys, Asked(ctx, nodes, n + 1))
    requires DistinctTo(ctx, nodes, n, out.nodes)
    requires forall id :: id in out.proxies <==> Named(Asked(ctx, nodes, n), id)
    ensures DistinctTo(ctx, nodes, n + 1, AddNode(ctx, out, nodes[n]).nodes)
  {
    var asked, pairs, ids := Asked(ctx, nodes, n), ProxyPairs(ctx, nodes[n]), FirstIds(nodes, n);
    assert asked + pairs == Asked(ctx, nodes, n + 1) && ids <= ctx.nodes.Keys;
    ProxiesApart(out, ids, asked, pairs);
    NodeApart(ctx, nodes, n, AddProxies(out, pairs).nodes, asked + pairs);
  }

  lemma ProxiesKnown(ctx: Context, nodes: seq<Node>, n: nat)
    requires DrawnOnce(ctx, nodes) && n <= |nodes| && Converted(ctx, nodes[..n]).Ok?
    ensures forall id :: id in Converted(ctx, nodes[..n]).value.proxies <==> Named(Asked(ctx, nodes, n), id)
  {
    forall id ensures id in Converted(ctx, nodes[..n]).value.proxies <==> Named(Asked(ctx, nodes, n), id) {
      HeldUpTo(ctx, nodes, n, id);
    }
  }

  ghost predicate DistinctTo(ctx: Context, nodes: seq<Node>, n: nat, made: seq<EngineNode>)
    requires n <= |nodes|
  {
    DistinctIds(made) && IdsKnown(made, FirstIds(nodes, n), Asked(ctx, nodes, n))
  }

  lemma {:induction false} DistinctUpTo(ctx: Context, nodes: seq<Node>, n: nat)
    requires DrawnOnce(ctx, nodes) && n <= |nodes| && Converted(ctx, nodes[..n]).Ok?
    requires Apart(ctx.nodes.Keys, Asked(ctx, nodes, n))
    ensures DistinctTo(ctx, nodes, n, Converted(ctx, nodes[..n]).value.nodes)
  {
    if n == 0 {
      assert nodes[..0] == [];
    } else {
      ConvertedBefore(ctx, nodes, n);
      AskedGrows(ctx, nodes, n - 1, n);
      DistinctUpTo(ctx, nodes, n - 1);
      ProxiesKnown(ctx, nodes, n - 1);
      DistinctNext(ctx, nodes, n - 1, Converted(ctx, nodes[..n - 1]).value);
    }
  }

  /** If no name asked for is a canvas id, all ids of the process are distinct. */
  lemma ProcessDistinct(ctx: Context, nodes: seq<Node>)
    requires DrawnOnce(ctx, nodes) && Converted(ctx, nodes).Ok? && Apart(ctx.nodes.Keys, AllAsked(ctx, nodes))
    ensures DistinctIds(Converted(ctx, nodes).value.nodes)
  {
    assert nodes[..|nodes|] == nodes;
    DistinctUpTo(ctx, nodes, |nodes|);
  }
}
