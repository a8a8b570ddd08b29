/** Conversion of an accepted canvas into engine nodes, with proxy nodes in front of gateways. */
module CanvasConverter {
  import opened Prelude
  import opened Graphs
  import opened CanvasModel
  import opened CanvasCycles
  import opened CanvasValidator
  import opened EffectiveGraph

  datatype ConvertError =
    | Refused(problem: Problem) | NoHandler(id: string) | NoScript(id: string) | CompensatesItself(id: string)
    | NoCompensationNode(id: string)

  function ProxyId(s: string, t: string): string { "proxy_" + s + "_" + t }

  /** The automatically approved task that stands between `s` and gateway `t`. */
  function ProxyNode(s: string, t: string): (n: EngineNode)
    ensures n.id == ProxyId(s, t) && n.prevs == [s] && IsProxy(n)
  {
    EngineNode(ProxyId(s, t), TaskNode, [s], [SYS_AUTO], false, [], [], 0)
  }

  predicate Gateway(kind: NodeKind) { kind.Splitting() || kind.Condition? }

  // ---------------------------------------------------------------- the image of one node

  /** How gateway `s` names its target `t`. */
  function TargetRef(ctx: Context, s: string, t: string): string {
    if KindOf(ctx, t).Splitting() then ProxyId(s, t) else t
  }

  /** How gateway `t` names its predecessor `s`. */
  function SourceRef(ctx: Context, s: string, t: string): string {
    if KindOf(ctx, s).Condition? then ProxyId(s, t) else s
  }

  function SourceRefs(ctx: Context, t: string): (r: seq<string>)
    ensures |r| == |Prevs(ctx, t)| && forall k | 0 <= k < |r| :: r[k] == SourceRef(ctx, Prevs(ctx, t)[k], t)
  {
    seq(|Prevs(ctx, t)|, k requires 0 <= k < |Prevs(ctx, t)| => SourceRef(ctx, Prevs(ctx, t)[k], t))
  }

  function TargetRefs(ctx: Context, s: string): (r: seq<string>)
    ensures |r| == |OutEdges(ctx, s)| && forall k | 0 <= k < |r| :: r[k] == TargetRef(ctx, s, OutEdges(ctx, s)[k].target)
  {
    seq(|OutEdges(ctx, s)|, k requires 0 <= k < |OutEdges(ctx, s)| => TargetRef(ctx, s, OutEdges(ctx, s)[k].target))
  }

  function Guards(ctx: Context, s: string): (r: seq<Guard>)
    ensures |r| == |OutEdges(ctx, s)|
    ensures forall k | 0 <= k < |r| :: r[k].nodeId == TargetRefs(ctx, s)[k]
    ensures forall k | 0 <= k < |r| :: r[k].expression != ""
  {
    seq(|OutEdges(ctx, s)|, k requires 0 <= k < |OutEdges(ctx, s)| =>
      Guard(
        if OutEdges(ctx, s)[k].expression == "" then "1 = 1" else OutEdges(ctx, s)[k].expression,
        TargetRefs(ctx, s)[k]))
  }

  function Image(ctx: Context, n: Node): (r: EngineNode)
    ensures r.id == n.id
    ensures n.kind.User? || !IsProxy(r)
    ensures n.kind.User? ==> (IsProxy(r) <==> SYS_AUTO in n.approved)
  {
    var plain := EngineNode(n.id, TaskNode, Prevs(ctx, n.id), [], false, [], [], 0);
    var gateway := plain.(kind := GatewayNode);
    match n.kind
    case StartNode => plain.(kind := RootNode, prevs := [], users := ["$starter"])
    case EndNode => plain.(kind := FinalNode)
    case User => plain.(users := n.approved, cosigned := n.cosigned)
    case Condition => gateway.(conditions := Guards(ctx, n.id), waitForAll := 3)
    case Parallel => gateway.(prevs := SourceRefs(ctx, n.id), inevitable := TargetRefs(ctx, n.id), waitForAll := 1)
    case Inclusion => gateway.(prevs := SourceRefs(ctx, n.id), inevitable := TargetRefs(ctx, n.id))
    case Selective => gateway.(prevs := SourceRefs(ctx, n.id), inevitable := TargetRefs(ctx, n.id), waitForAll := 1)
    case Automation => plain.(users := ["automation"])
    case ChatGroup => plain.(users := ["chat_group"])
    case Unsupported(_) => plain
  }

  /** What the handlers refuse. */
  function Refusal(ctx: Context, n: Node): Option<ConvertError> {
    if n.kind.Unsupported? then Some(NoHandler(n.id))
    else if !n.kind.Automation? then None
    else if n.codebook <= 0 then Some(NoScript(n.id))
    else if n.compensation == "" then None
    else if n.compensation == n.id then Some(CompensatesItself(n.id))
    else if !KindOf(ctx, n.compensation).Automation? then Some(NoCompensationNode(n.id))
    else None
  }

  // ---------------------------------------------------------------- each node kind, read off the drawing

  /** `x` names what gateway `s` leads to along a drawn edge to `t`: a proxy before a splitting gateway, else `t` itself. */
  predicate LeadsTo(ctx: Context, s: string, t: string, x: string) {
    var kind := KindOf(ctx, t);
    if kind == Parallel || kind == Inclusion || kind == Selective then x == "proxy_" + s + "_" + t else x == t
  }

  /** `x` names what comes to splitting gateway `t` along a drawn edge from `s`: a proxy behind a condition, else `s` itself. */
  predicate ComesFrom(ctx: Context, s: string, t: string, x: string) {
    if KindOf(ctx, s) == Condition then x == "proxy_" + s + "_" + t else x == s
  }

  /** One rule for each drawn out-edge, in order: the edge's own expression, or `1 = 1` where it has none. */
  ghost predicate Branches(ctx: Context, s: string, conditions: seq<Guard>) {
    var out := OutEdges(ctx, s);
    && |conditions| == |out|
    && (forall k | 0 <= k < |out| :: LeadsTo(ctx, s, out[k].target, conditions[k].nodeId))
    && (forall k | 0 <= k < |out| && out[k].expression == "" :: conditions[k].expression == "1 = 1")
    && (forall k | 0 <= k < |out| && out[k].expression != "" :: conditions[k].expression == out[k].expression)
  }

  predicate Ungated(r: EngineNode) { r.conditions == [] && r.inevitable == [] && r.waitForAll == 0 }

  ghost predicate TaskFor(ctx: Context, n: Node, r: EngineNode, users: seq<string>) {
    r.kind == TaskNode && r.prevs == Prevs(ctx, n.id) && r.users == users && Ungated(r)
  }

  /** A gateway without rules that waits as `wait` says, between all its drawn predecessors and all its drawn targets. */
  ghost predicate SplitFor(ctx: Context, n: Node, r: EngineNode, wait: int) {
    var out, prevs := OutEdges(ctx, n.id), Prevs(ctx, n.id);
    && r.kind == GatewayNode && r.users == [] && r.conditions == [] && r.waitForAll == wait
    && |r.inevitable| == |out| && |r.prevs| == |prevs|
    && (forall k | 0 <= k < |out| :: LeadsTo(ctx, n.id, out[k].target, r.inevitable[k]))
    && (forall k | 0 <= k < |prevs| :: ComesFrom(ctx, prevs[k], n.id, r.prevs[k]))
  }

  ghost predicate Renders(ctx: Context, n: Node, r: EngineNode) {
    && r.id == n.id && (r.cosigned <==> n.kind == User && n.cosigned)
    && match n.kind
      case StartNode => r.kind == RootNode && r.prevs == [] && r.users == ["$starter"] && Ungated(r)
      case EndNode => r.kind == FinalNode && r.prevs == Prevs(ctx, n.id) && r.users == [] && Ungated(r)
      case User => TaskFor(ctx, n, r, n.approved)
      case Automation => TaskFor(ctx, n, r, ["automation"])
      case ChatGroup => TaskFor(ctx, n, r, ["chat_group"])
      case Condition =>
        && r.kind == GatewayNode && r.prevs == Prevs(ctx, n.id) && r.users == [] && r.inevitable == [] && r.waitForAll == 3
        && Branches(ctx, n.id, r.conditions)
      case Parallel => SplitFor(ctx, n, r, 1)
      case Inclusion => SplitFor(ctx, n, r, 0)
      case Selective => SplitFor(ctx, n, r, 1)
      case Unsupported(_) => TaskFor(ctx, n, r, [])
  }

  lemma ImageRenders(ctx: Context, n: Node)
    ensures Renders(ctx, n, Image(ctx, n))
  {
  }

  /** What each handler refuses: an unknown kind, an automation without a script, or one compensated by itself or by no
      automation. */
  predicate Rejects(ctx: Context, n: Node, e: ConvertError) {
    match n.kind
    case Unsupported(_) => e == NoHandler(n.id)
    case Automation =>
      if n.codebook < 1 then e == NoScript(n.id)
      else if n.compensation == "" then false
      else if n.compensation == n.id then e == CompensatesItself(n.id)
      else e == NoCompensationNode(n.id) && !(n.compensation in ctx.nodes && ctx.nodes[n.compensation].kind == Automation)
    case _ => false
  }

  ghost predicate Takes(ctx: Context, n: Node) {
    forall e :: !Rejects(ctx, n, e)
  }

  lemma RefusalRejects(ctx: Context, n: Node)
    ensures forall e :: Refusal(ctx, n) == Some(e) <==> Rejects(ctx, n, e)
    ensures Refusal(ctx, n) == None <==> Takes(ctx, n)
  {
    if Refusal(ctx, n).Some? { assert Rejects(ctx, n, Refusal(ctx, n).value); }
  }

  // ---------------------------------------------------------------- the growing output

  datatype Output = Output(nodes: seq<EngineNode>, proxies: set<string>)

  function AddProxy(out: Output, s: string, t: string): Output {
    if ProxyId(s, t) in out.proxies then out
    else Output(out.nodes + [ProxyNode(s, t)], out.proxies + {ProxyId(s, t)})
  }

  function AddProxies(out: Output, pairs: seq<(string, string)>): Output {
    if pairs == [] then out else
    var last := pairs[|pairs| - 1];
    AddProxy(AddProxies(out, pairs[..|pairs| - 1]), last.0, last.1)
  }

  /** The out-edges of gateway `s` that get a proxy, in edge order. */
  function TargetPairs(ctx: Context, s: string, edges: seq<Edge>): seq<(string, string)> {
    if edges == [] then [] else
    var t := edges[|edges| - 1].target;
    TargetPairs(ctx, s, edges[..|edges| - 1]) + (if KindOf(ctx, t).Splitting() then [(s, t)] else [])
  }

  /** The in-edges of gateway `t` that get a proxy, in edge order. */
  function SourcePairs(ctx: Context, t: string, prevs: seq<string>): seq<(string, string)> {
    if prevs == [] then [] else
    var s := prevs[|prevs| - 1];
    SourcePairs(ctx, t, prevs[..|prevs| - 1]) + (if KindOf(ctx, s).Condition? then [(s, t)] else [])
  }

  function ProxyPairs(ctx: Context, n: Node): seq<(string, string)> {
    (if Gateway(n.kind) then TargetPairs(ctx, n.id, OutEdges(ctx, n.id)) else [])
    + (if n.kind.Splitting() then SourcePairs(ctx, n.id, Prevs(ctx, n.id)) else [])
  }

  function AddNode(ctx: Context, out: Output, n: Node): Output {
    var made := AddProxies(out, ProxyPairs(ctx, n));
    Output(made.nodes + [Image(ctx, n)], made.proxies)
  }

  function Converted(ctx: Context, nodes: seq<Node>): Result<Output, ConvertError> {
    if nodes == [] then Ok(Output([], {})) else
    var last := nodes[|nodes| - 1];
    match Converted(ctx, nodes[..|nodes| - 1])
    case Err(e) => Err(e)
    case Ok(out) =>
      match Refusal(ctx, last)
      case Some(e) => Err(e)
      case None => Ok(AddNode(ctx, out, last))
  }

  // ---------------------------------------------------------------- the converter

  /** The converter's working state: the canvas indexes, the nodes made so far, the proxies among them. */
  class Conversion {
    const ctx: Context
    var output: seq<EngineNode>
    var proxies: set<string>

    function State(): Output
      reads this
    {
      Output(output, proxies)
    }

    constructor (ctx: Context)
      ensures this.ctx == ctx && State() == Output([], {})
    {
      this.ctx := ctx;
      output, proxies := [], {};
    }

    /** The proxy between `s` and `t`, created on first use. */
    method RequireProxy(s: string, t: string) returns (id: string)
      modifies this
      ensures State() == AddProxy(old(State()), s, t) && id == ProxyId(s, t)
    {
      id := ProxyId(s, t);
      if id !in proxies {
        proxies := proxies + {id};
        output := output + [ProxyNode(s, t)];
      }
    }

    method GetOrGenerateProxyID(s: string, t: string) returns (id: string)
      modifies this
      ensures id == TargetRef(ctx, s, t)
      ensures if KindOf(ctx, t).Splitting() then Proxied(old(State()), State(), s, t, id) else id == t && State() == old(State())
      ensures State() == if KindOf(ctx, t).Splitting() then AddProxy(old(State()), s, t) else old(State())
    {
      if KindOf(ctx, t).Splitting() {
        id := RequireProxy(s, t);
      } else {
        id := t;
      }
    }

    method GetOrGenerateProxyForGateway(s: string, t: string) returns (id: string)
      modifies this
      ensures id == SourceRef(ctx, s, t)
      ensures if KindOf(ctx, s).Condition? then Proxied(old(State()), State(), s, t, id) else id == s && State() == old(State())
      ensures State() == if KindOf(ctx, s).Condition? then AddProxy(old(State()), s, t) else old(State())
    {
      if KindOf(ctx, s).Condition? {
        id := RequireProxy(s, t);
      } else {
        id := s;
      }
    }

    method LinkTargets(s: string) returns (refs: seq<string>)
      modifies this
      ensures refs == TargetRefs(ctx, s)
      ensures State() == AddProxies(old(State()), TargetPairs(ctx, s, OutEdges(ctx, s)))
    {
      var edges := OutEdges(ctx, s);
      refs := [];
      for k := 0 to |edges|
        invariant |refs| == k && forall j | 0 <= j < k :: refs[j] == TargetRef(ctx, s, edges[j].target)
        invariant State() == AddProxies(old(State()), TargetPairs(ctx, s, edges[..k]))
      {
        TargetLinked(ctx, old(State()), s, edges, k);
        var id := GetOrGenerateProxyID(s, edges[k].target);
        refs := refs + [id];
      }
      assert edges[..|edges|] == edges;
    }

    method LinkSources(t: string) returns (refs: seq<string>)
      modifies this
      ensures refs == SourceRefs(ctx, t)
      ensures State() == AddProxies(old(State()), SourcePairs(ctx, t, Prevs(ctx, t)))
    {
      var prevs := Prevs(ctx, t);
      refs := [];
      for k := 0 to |prevs|
        invariant |refs| == k && forall j | 0 <= j < k :: refs[j] == SourceRef(ctx, prevs[j], t)
        invariant State() == AddProxies(old(State()), SourcePairs(ctx, t, prevs[..k]))
      {
        SourceLinked(ctx, old(State()), t, prevs, k);
        var id := GetOrGenerateProxyForGateway(prevs[k], t);
        refs := refs + [id];
      }
      assert prevs[..|prevs|] == prevs;
    }

    /** The image of one node; gateways create the proxies they need on the way. */
    method Handle(n: Node) returns (r: Result<EngineNode, ConvertError>)
      modifies this
      ensures r == match Refusal(ctx, n) case Some(e) => Err(e) case None => Ok(Image(ctx, n))
      ensures forall e :: r == Err(e) <==> Rejects(ctx, n, e)
      ensures r.Ok? ==> Renders(ctx, n, r.value)
      ensures r.Ok? ==> State() == AddProxies(old(State()), ProxyPairs(ctx, n))
    {
      RefusalRejects(ctx, n);
      ImageRenders(ctx, n);
      var refusal := Refusal(ctx, n);
      if refusal.Some? {
        return Err(refusal.value);
      }
      var image := EngineNode(n.id, TaskNode, [], [], false, [], [], 0);
      if Gateway(n.kind) {
        var refs := LinkTargets(n.id);
        image := image.(kind := GatewayNode);
        if n.kind.Condition? {
          assert ProxyPairs(ctx, n) == TargetPairs(ctx, n.id, OutEdges(ctx, n.id));
          var prevs := Prevs(ctx, n.id);
          image := image.(conditions := Guards(ctx, n.id), prevs := prevs, waitForAll := 3);
        } else {
          ghost var pairs := TargetPairs(ctx, n.id, OutEdges(ctx, n.id));
          ProxiesJoined(old(State()), pairs, SourcePairs(ctx, n.id, Prevs(ctx, n.id)));
          var prevs := LinkSources(n.id);
          image := image.(inevitable := refs, prevs := prevs, waitForAll := if n.kind.Inclusion? then 0 else 1);
        }
      } else {
        match n.kind {
          case StartNode => image := image.(kind := RootNode, users := ["$starter"]);
          case EndNode => image := image.(kind := FinalNode, prevs := Prevs(ctx, n.id));
          case User => image := image.(prevs := Prevs(ctx, n.id), users := n.approved, cosigned := n.cosigned);
          case Automation => image := image.(prevs := Prevs(ctx, n.id), users := ["automation"]);
          case ChatGroup => image := image.(prevs := Prevs(ctx, n.id), users := ["chat_group"]);
        }
      }
      r := Ok(image);
    }

    /** Converts the nodes in drawing order, stopping at the first a handler refuses. */
    method ConvertNodes(nodes: seq<Node>) returns (r: Result<seq<EngineNode>, ConvertError>)
      requires State() == Output([], {})
      modifies this
      ensures r == match Converted(ctx, nodes) case Err(e) => Err(e) case Ok(out) => Ok(out.nodes)
    {
      for k := 0 to |nodes|
        invariant Converted(ctx, nodes[..k]) == Ok(State())
      {
        assert nodes[..k + 1][..k] == nodes[..k];
        var image := Handle(nodes[k]);
        if image.Err? {
          assert Converted(ctx, nodes[..k + 1]).Err?;
          ErrorStays(ctx, nodes, k + 1);
          return Err(image.error);
        }
        output := output + [image.value];
      }
      assert nodes[..|nodes|] == nodes;
      r := Ok(output);
    }
  }

  /** `id` names a proxy; the first time it is asked for, its node, preceded by `s` alone, is the one thing added. */
  ghost predicate Proxied(before: Output, after: Output, s: string, t: string, id: string) {
    && id == "proxy_" + s + "_" + t && after.proxies == before.proxies + {id}
    && (id in before.proxies ==> after.nodes == before.nodes)
    && (id !in before.proxies ==> AppendsProxy(before.nodes, after.nodes, s, id))
  }

  ghost predicate AppendsProxy(before: seq<EngineNode>, after: seq<EngineNode>, s: string, id: string) {
    && |after| == |before| + 1 && after[..|before|] == before
    && after[|before|] == EngineNode(id, TaskNode, [s], ["sys_auto"], false, [], [], 0)
  }

  lemma PairAdded(out: Output, pairs: seq<(string, string)>, p: (string, string))
    ensures AddProxies(out, pairs + [p]) == AddProxy(AddProxies(out, pairs), p.0, p.1)
    ensures AddProxies(out, pairs + []) == AddProxies(out, pairs)
  {
    assert (pairs + [p])[..|pairs|] == pairs;
    assert pairs + [] == pairs;
  }

  lemma TargetLinked(ctx: Context, out: Output, s: string, edges: seq<Edge>, k: nat)
    requires k < |edges|
    ensures var before, t := AddProxies(out, TargetPairs(ctx, s, edges[..k])), edges[k].target;
      AddProxies(out, TargetPairs(ctx, s, edges[..k + 1])) ==
        if KindOf(ctx, t).Splitting() then AddProxy(before, s, t) else before
  {
    assert edges[..k + 1][..k] == edges[..k];
    PairAdded(out, TargetPairs(ctx, s, edges[..k]), (s, edges[k].target));
  }

  lemma SourceLinked(ctx: Context, out: Output, t: string, prevs: seq<string>, k: nat)
    requires k < |prevs|
    ensures var before, s := AddProxies(out, SourcePairs(ctx, t, prevs[..k])), prevs[k];
      AddProxies(out, SourcePairs(ctx, t, prevs[..k + 1])) ==
        if KindOf(ctx, s).Condition? then AddProxy(before, s, t) else before
  {
    assert prevs[..k + 1][..k] == prevs[..k];
    PairAdded(out, SourcePairs(ctx, t, prevs[..k]), (prevs[k], t));
  }

  lemma {:induction false} ProxiesJoined(out: Output, a: seq<(string, string)>, b: seq<(string, string)>)
    ensures AddProxies(out, a + b) == AddProxies(AddProxies(out, a), b)
  {
    if b == [] {
      assert a + b == a;
    } else {
      ProxiesJoined(out, a, b[..|b| - 1]);
      assert (a + b)[..|a + b| - 1] == a + b[..|b| - 1];
    }
  }

  lemma {:induction false} ErrorStays(ctx: Context, nodes: seq<Node>, k: nat)
    requires k <= |nodes| && Converted(ctx, nodes[..k]).Err?
    ensures Converted(ctx, nodes) == Converted(ctx, nodes[..k])
    decreases |nodes| - k
  {
    if k == |nodes| {
      assert nodes[..k] == nodes;
    } else {
      assert nodes[..k + 1][..k] == nodes[..k];
      ErrorStays(ctx, nodes, k + 1);
    }
  }

  /** Conversion fails exactly when some handler refuses its node, with the refusal of the first one. */
  lemma {:induction false} ConversionFailsExactly(ctx: Context, nodes: seq<Node>)
    ensures Converted(ctx, nodes).Ok? <==> forall k | 0 <= k < |nodes| :: Takes(ctx, nodes[k])
    ensures Converted(ctx, nodes).Err? ==>
      exists k :: 0 <= k < |nodes| && FirstRefused(ctx, nodes, k) && Rejects(ctx, nodes[k], Converted(ctx, nodes).error)
  {
    if nodes != [] {
      RefusalRejects(ctx, nodes[|nodes| - 1]);
      var rest := nodes[..|nodes| - 1];
      ConversionFailsExactly(ctx, rest);
      assert forall k | 0 <= k < |rest| :: nodes[k] == rest[k];
      if Converted(ctx, rest).Err? {
        var k :| 0 <= k < |rest| && FirstRefused(ctx, rest, k) && Rejects(ctx, rest[k], Converted(ctx, rest).error);
        assert FirstRefused(ctx, nodes, k);
      } else if Converted(ctx, nodes).Err? {
        assert FirstRefused(ctx, nodes, |rest|);
      }
    }
  }

  ghost predicate FirstRefused(ctx: Context, nodes: seq<Node>, k: nat)
    requires k < |nodes|
  {
    !Takes(ctx, nodes[k]) && forall j | 0 <= j < k :: Takes(ctx, nodes[j])
  }

  /** The keys of the node index, each once. */
  method NodeKeys(ctx: Context, nodes: seq<Node>, edges: seq<Edge>) returns (keys: seq<string>)
    requires Indexes(ctx, nodes, edges)
    ensures Listed(ctx, keys)
  {
    keys := [];
    for k := 0 to |nodes|
      invariant Distinct(keys)
      invariant forall v :: v in keys <==> exists j :: 0 <= j < k && nodes[j].id == v
    {
      if nodes[k].id !in keys {
        keys := keys + [nodes[k].id];
      }
    }
  }

  /** The pipeline: drop overlapping edges, index, validate, convert. */
  method Convert(nodes: seq<Node>, edges: seq<Edge>)
    returns (r: Result<seq<EngineNode>, ConvertError>, ctx: Context, unique: seq<Edge>)
    ensures unique == Deduplicated(edges) && OnePerPair(unique) && SamePairs(unique, edges) && KeepsPreferred(unique, edges)
    ensures ctx == CanvasContext(nodes, edges) && Indexes(ctx, nodes, unique)
    ensures if Accepted(ctx) then
        r == match Converted(ctx, nodes) case Err(e) => Err(e) case Ok(out) => Ok(out.nodes)
      else r.Err? && r.error.Refused?
  {
    unique := DeduplicateEdges(edges);
    ctx := BuildContext(nodes, unique);
    IndexedIsWellBuilt(ctx, nodes, unique);
    var keys := NodeKeys(ctx, nodes, unique);
    var problem := ValidateAll(ctx, keys);
    if problem.Some? {
      return Err(Refused(problem.value)), ctx, unique;
    }
    var conversion := new Conversion(ctx);
    r := conversion.ConvertNodes(nodes);
  }
}
