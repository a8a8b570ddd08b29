/** The converted process is well formed, and leaving its proxies out gives the canvas back. */
module CanvasRoundTrip {
  import opened Prelude
  import opened Graphs
  import opened CanvasModel
  import opened CanvasCycles
  import opened CanvasScan
  import opened CanvasValidator
  import opened EffectiveGraph
  import opened CanvasConverter
  import opened CanvasNames

  lemma AcceptedBase(ctx: Context)
    requires Accepted(ctx)
    ensures Endpoints(ctx) && Bounded(ctx) && Acyclic(ForwardGraph(ctx))
  {
  }

  // ---------------------------------------------------------------- every reference resolves

  predicate Names(n: EngineNode, x: string) {
    x in n.inevitable || exists k :: 0 <= k < |n.conditions| && n.conditions[k].nodeId == x
  }

  lemma PrevIsSource(ctx: Context, s: string, v: string)
    requires WellBuilt(ctx)
    ensures s in Prevs(ctx, v) <==> v in Targets(ctx, s)
  {
    assert Balanced(ctx, s, v);
  }

  /** How the image of `v` refers to predecessor `s`. */
  function Reference(ctx: Context, s: string, v: string): string {
    if KindOf(ctx, v).Splitting() then SourceRef(ctx, s, v) else s
  }

  lemma ImagePrev(ctx: Context, n: Node, p: string) returns (s: string)
    requires p in Image(ctx, n).prevs && n.id in ctx.nodes && ctx.nodes[n.id] == n
    ensures s in Prevs(ctx, n.id) && p == Reference(ctx, s, n.id)
  {
    s := p;
    if n.kind.Splitting() {
      var k :| 0 <= k < |SourceRefs(ctx, n.id)| && SourceRefs(ctx, n.id)[k] == p;
      s := Prevs(ctx, n.id)[k];
    }
  }

  lemma ImageHasPrev(ctx: Context, n: Node, s: string)
    requires s in Prevs(ctx, n.id) && !n.kind.StartNode? && n.id in ctx.nodes && ctx.nodes[n.id] == n
    ensures Reference(ctx, s, n.id) in Image(ctx, n).prevs
  {
    var k :| 0 <= k < |Prevs(ctx, n.id)| && Prevs(ctx, n.id)[k] == s;
    assert SourceRefs(ctx, n.id)[k] in SourceRefs(ctx, n.id);
  }

  lemma ImageName(ctx: Context, n: Node, x: string) returns (t: string)
    requires Names(Image(ctx, n), x)
    ensures t in Targets(ctx, n.id) && Gateway(n.kind) && x == TargetRef(ctx, n.id, t)
  {
    var image := Image(ctx, n);
    var k: nat;
    if x in image.inevitable {
      k :| k < |TargetRefs(ctx, n.id)| && TargetRefs(ctx, n.id)[k] == x;
    } else {
      k :| k < |image.conditions| && image.conditions[k].nodeId == x;
    }
    t := Targets(ctx, n.id)[k];
  }

  /** A canvas that was indexed, drawn once, and converted. */
  ghost predicate Drawing(ctx: Context, nodes: seq<Node>) {
    WellBuilt(ctx) && Endpoints(ctx) && DrawnOnce(ctx, nodes) && Converted(ctx, nodes).Ok?
  }

  /** Every canvas id and every name asked for is in the process. */
  lemma InProcess(ctx: Context, nodes: seq<Node>, id: string)
    requires Drawing(ctx, nodes)
    ensures id in ProcessOf(ctx, nodes) <==> id in ctx.nodes || Named(AllAsked(ctx, nodes), id)
  {
    ProcessHolds(ctx, nodes, id);
    if id in ctx.nodes {
      var k := NodeDrawn(ctx, nodes, id);
      NodeHeld(ctx, nodes, k);
      assert ctx.nodes[id].id == id;
    }
  }

  lemma EdgeNamed(ctx: Context, nodes: seq<Node>, s: string, t: string)
    requires Drawing(ctx, nodes) && ProxyEdge(ctx, s, t)
    ensures Named(AllAsked(ctx, nodes), ProxyId(s, t))
  {
    SourceIsNode(ctx, s, t);
    var k := NodeDrawn(ctx, nodes, s);
    assert ctx.nodes[s].id == s;
    AsksFor(ctx, nodes, k, t);
  }

  lemma ReferenceInProcess(ctx: Context, nodes: seq<Node>, s: string, v: string)
    requires Drawing(ctx, nodes) && s in Prevs(ctx, v)
    ensures Reference(ctx, s, v) in ProcessOf(ctx, nodes)
  {
    PrevIsSource(ctx, s, v);
    SourceIsNode(ctx, s, v);
    if Reference(ctx, s, v) != s { EdgeNamed(ctx, nodes, s, v); }
    InProcess(ctx, nodes, Reference(ctx, s, v));
  }

  ghost predicate KeepsImage(ctx: Context, m: NodeMap, v: string) {
    v in ctx.nodes && v in m && m[v] == Image(ctx, ctx.nodes[v])
  }

  ghost predicate ForEdge(ctx: Context, e: EngineNode) {
    exists s, t {:trigger ProxyEdge(ctx, s, t)} :: ProxyEdge(ctx, s, t) && e == ProxyNode(s, t)
  }

  lemma ImageOrProxy(ctx: Context, nodes: seq<Node>, v: string)
    requires Drawing(ctx, nodes) && v in ProcessOf(ctx, nodes)
    ensures KeepsImage(ctx, ProcessOf(ctx, nodes), v) || ForEdge(ctx, ProcessOf(ctx, nodes)[v])
  {
    ProcessHolds(ctx, nodes, v);
    if !KeepsImage(ctx, ProcessOf(ctx, nodes), v) {
      AskedNeed(ctx, nodes, |nodes|, First(AllAsked(ctx, nodes), v));
    }
  }

  /** All predecessors in the process exist, however the proxies are named. */
  lemma PredecessorsExist(ctx: Context, nodes: seq<Node>, v: string, p: string)
    requires Drawing(ctx, nodes) && v in ProcessOf(ctx, nodes) && p in ProcessOf(ctx, nodes)[v].prevs
    ensures p in ProcessOf(ctx, nodes)
  {
    ImageOrProxy(ctx, nodes, v);
    if KeepsImage(ctx, ProcessOf(ctx, nodes), v) {
      assert ctx.nodes[v].id == v;
      var s := ImagePrev(ctx, ctx.nodes[v], p);
      ReferenceInProcess(ctx, nodes, s, v);
    } else {
      var s, t :| ProxyEdge(ctx, s, t) && ProcessOf(ctx, nodes)[v] == ProxyNode(s, t);
      SourceIsNode(ctx, s, t);
      InProcess(ctx, nodes, s);
    }
  }

  lemma EnteredIsNoStart(ctx: Context, u: string, v: string)
    requires WellBuilt(ctx) && Endpoints(ctx) && Bounded(ctx) && v in Targets(ctx, u)
    ensures !KindOf(ctx, v).StartNode?
  {
    SourceIsNode(ctx, u, v);
    PrevIsSource(ctx, u, v);
    assert KindOf(ctx, v).StartNode? <==> IsStart(ctx, v);
  }

  /** What the generated names rely on: no proxy is named like a node or like another proxy. */
  ghost predicate FreshNames(ctx: Context) {
    && (forall s, t {:trigger ProxyEdge(ctx, s, t)} | ProxyEdge(ctx, s, t) :: ProxyId(s, t) !in ctx.nodes)
    && (forall s, t, u, v {:trigger ProxyEdge(ctx, s, t), ProxyEdge(ctx, u, v)}
        | ProxyEdge(ctx, s, t) && ProxyEdge(ctx, u, v) && ProxyId(s, t) == ProxyId(u, v) :: s == u && t == v)
  }

  lemma FreshApart(ctx: Context, nodes: seq<Node>)
    requires Drawing(ctx, nodes) && FreshNames(ctx)
    ensures Apart(ctx.nodes.Keys, AllAsked(ctx, nodes))
    ensures forall id | id in ctx.nodes :: !Named(AllAsked(ctx, nodes), id)
  {
    forall q | q in AllAsked(ctx, nodes) ensures ProxyId(q.0, q.1) !in ctx.nodes { AskedNeed(ctx, nodes, |nodes|, q); }
  }

  lemma FreshFirst(ctx: Context, nodes: seq<Node>, s: string, t: string)
    requires Drawing(ctx, nodes) && FreshNames(ctx) && ProxyEdge(ctx, s, t)
    ensures Named(AllAsked(ctx, nodes), ProxyId(s, t)) && First(AllAsked(ctx, nodes), ProxyId(s, t)) == (s, t)
  {
    EdgeNamed(ctx, nodes, s, t);
    AskedNeed(ctx, nodes, |nodes|, First(AllAsked(ctx, nodes), ProxyId(s, t)));
  }

  // ---------------------------------------------------------------- what fresh names give

  ghost predicate IsProxyNode(ctx: Context, m: NodeMap, v: string, s: string, t: string) {
    ProxyEdge(ctx, s, t) && v == ProxyId(s, t) && v in m && m[v] == ProxyNode(s, t)
  }

  ghost predicate Inserted(ctx: Context, m: NodeMap, v: string) {
    exists s, t :: IsProxyNode(ctx, m, v, s, t)
  }

  /** The process holds the image of every canvas node, one proxy per edge that needs it, nothing else. */
  ghost predicate Rendered(ctx: Context, m: NodeMap) {
    && (forall v {:trigger KeepsImage(ctx, m, v)} | v in ctx.nodes :: KeepsImage(ctx, m, v))
    && (forall v {:trigger Inserted(ctx, m, v)} | v in m && v !in ctx.nodes :: Inserted(ctx, m, v))
    && (forall s, t {:trigger IsProxyNode(ctx, m, ProxyId(s, t), s, t)} | ProxyEdge(ctx, s, t) ::
          IsProxyNode(ctx, m, ProxyId(s, t), s, t))
  }

  lemma FreshNodeHeld(ctx: Context, nodes: seq<Node>, v: string)
    requires Drawing(ctx, nodes) && FreshNames(ctx) && v in ctx.nodes
    ensures KeepsImage(ctx, ProcessOf(ctx, nodes), v)
  {
    FreshApart(ctx, nodes);
    var k := NodeDrawn(ctx, nodes, v);
    assert ctx.nodes[v].id == v;
    NodeHeld(ctx, nodes, k);
  }

  lemma FreshProxyHeld(ctx: Context, nodes: seq<Node>, s: string, t: string)
    requires Drawing(ctx, nodes) && FreshNames(ctx) && ProxyEdge(ctx, s, t)
    ensures IsProxyNode(ctx, ProcessOf(ctx, nodes), ProxyId(s, t), s, t)
  {
    FreshFirst(ctx, nodes, s, t);
    NameHeld(ctx, nodes, ProxyId(s, t));
  }

  /** With fresh names the generated nodes carry distinct ids and render the canvas exactly. */
  lemma ConvertedRenders(ctx: Context, nodes: seq<Node>)
    requires Drawing(ctx, nodes) && FreshNames(ctx)
    ensures DistinctIds(Converted(ctx, nodes).value.nodes)
    ensures Rendered(ctx, ProcessOf(ctx, nodes))
  {
    var m := ProcessOf(ctx, nodes);
    FreshApart(ctx, nodes);
    ProcessDistinct(ctx, nodes);
    forall v | v in ctx.nodes ensures KeepsImage(ctx, m, v) { FreshNodeHeld(ctx, nodes, v); }
    forall s, t | ProxyEdge(ctx, s, t) ensures IsProxyNode(ctx, m, ProxyId(s, t), s, t) { FreshProxyHeld(ctx, nodes, s, t); }
    forall v | v in m && v !in ctx.nodes ensures Inserted(ctx, m, v) {
      NameHeld(ctx, nodes, v);
      var q := First(AllAsked(ctx, nodes), v);
      AskedNeed(ctx, nodes, |nodes|, q);
      assert IsProxyNode(ctx, m, v, q.0, q.1);
    }
  }

  lemma TargetLinked(ctx: Context, m: NodeMap, v: string, t: string)
    requires Rendered(ctx, m) && WellBuilt(ctx) && Endpoints(ctx) && t in Targets(ctx, v) && Gateway(KindOf(ctx, v))
    requires !KindOf(ctx, t).StartNode?
    ensures var x := TargetRef(ctx, v, t); x in m && v in m[x].prevs
  {
    SourceIsNode(ctx, v, t);
    PrevIsSource(ctx, v, t);
    if KindOf(ctx, t).Splitting() {
      assert IsProxyNode(ctx, m, ProxyId(v, t), v, t);
    } else {
      assert KeepsImage(ctx, m, t);
      assert ctx.nodes[t].id == t;
      ImageHasPrev(ctx, ctx.nodes[t], v);
    }
  }

  lemma NamedTarget(ctx: Context, nodes: seq<Node>, v: string, x: string) returns (t: string)
    requires Drawing(ctx, nodes) && v in ProcessOf(ctx, nodes) && Names(ProcessOf(ctx, nodes)[v], x)
    ensures t in Targets(ctx, v) && Gateway(KindOf(ctx, v)) && x == TargetRef(ctx, v, t)
  {
    ImageOrProxy(ctx, nodes, v);
    assert ctx.nodes[v].id == v;
    t := ImageName(ctx, ctx.nodes[v], x);
  }

  /** Every target a gateway names exists; with fresh names it lists the gateway as a predecessor. */
  lemma TargetsExist(ctx: Context, nodes: seq<Node>, v: string, x: string)
    requires Drawing(ctx, nodes) && Bounded(ctx) && v in ProcessOf(ctx, nodes) && Names(ProcessOf(ctx, nodes)[v], x)
    ensures x in ProcessOf(ctx, nodes)
    ensures FreshNames(ctx) ==> v in ProcessOf(ctx, nodes)[x].prevs
  {
    var t := NamedTarget(ctx, nodes, v, x);
    SourceIsNode(ctx, v, t);
    if KindOf(ctx, t).Splitting() { EdgeNamed(ctx, nodes, v, t); }
    InProcess(ctx, nodes, x);
    if FreshNames(ctx) {
      ConvertedRenders(ctx, nodes);
      EnteredIsNoStart(ctx, v, t);
      TargetLinked(ctx, ProcessOf(ctx, nodes), v, t);
    }
  }

  // ---------------------------------------------------------------- when collapsing gives the canvas back

  /** No approver list of a user node holds the proxies' own user. */
  ghost predicate NoSystemApprover(ctx: Context) {
    forall v {:trigger SystemApproved(ctx, v)} :: !SystemApproved(ctx, v)
  }

  predicate SystemApproved(ctx: Context, v: string) {
    v in ctx.nodes && ctx.nodes[v].kind.User? && SYS_AUTO in ctx.nodes[v].approved
  }

  ghost predicate GivesBack(ctx: Context, m: NodeMap) {
    forall u, v {:trigger SameEdge(ctx, m, u, v)} :: SameEdge(ctx, m, u, v)
  }

  ghost predicate SameEdge(ctx: Context, m: NodeMap, u: string, v: string) {
    EffectiveEdge(m, u, v) <==> v in Targets(ctx, u)
  }

  /** No canvas node loses its id to a proxy drawn later. */
  ghost predicate IdsKept(ctx: Context, nodes: seq<Node>) {
    forall k {:trigger KeepsId(ctx, nodes, k)} | 0 <= k < |nodes| :: KeepsId(ctx, nodes, k)
  }

  /** The canvas node a name leads back to: the node of this id, else the source of the edge that asked first. */
  function BackTo(ctx: Context, nodes: seq<Node>, name: string): string {
    if name in ctx.nodes || !Named(AllAsked(ctx, nodes), name) then name else First(AllAsked(ctx, nodes), name).0
  }

  /** One of the names by which gateway `t` refers to conditions leads back to `s`. */
  ghost predicate LeadsBack(ctx: Context, nodes: seq<Node>, s: string, t: string) {
    exists c :: c in Prevs(ctx, t) && KindOf(ctx, c).Condition? && BackTo(ctx, nodes, ProxyId(c, t)) == s
  }

  /** Every condition before a gateway is led back to. */
  ghost predicate NoneLost(ctx: Context, nodes: seq<Node>) {
    forall s, t {:trigger LeadsBack(ctx, nodes, s, t)}
      | KindOf(ctx, t).Splitting() && s in Prevs(ctx, t) && KindOf(ctx, s).Condition? :: LeadsBack(ctx, nodes, s, t)
  }

  /** The generated names serve: whatever collides, no node and no condition before a gateway is lost by it. */
  ghost predicate NamesServe(ctx: Context, nodes: seq<Node>) { IdsKept(ctx, nodes) && NoneLost(ctx, nodes) }

  lemma FreshNamesServe(ctx: Context, nodes: seq<Node>)
    requires Drawing(ctx, nodes) && FreshNames(ctx)
    ensures NamesServe(ctx, nodes)
  {
    FreshApart(ctx, nodes);
    forall k | 0 <= k < |nodes| ensures KeepsId(ctx, nodes, k) { assert nodes[k].id in ctx.nodes; }
    forall s, t | KindOf(ctx, t).Splitting() && s in Prevs(ctx, t) && KindOf(ctx, s).Condition?
      ensures LeadsBack(ctx, nodes, s, t)
    {
      PrevIsSource(ctx, s, t);
      FreshFirst(ctx, nodes, s, t);
    }
  }

  /** Every node stands under its own id, as its image, and no image is taken for a proxy. */
  ghost predicate Standing(ctx: Context, nodes: seq<Node>) {
    && Drawing(ctx, nodes)
    && (forall v {:trigger KeepsImage(ctx, ProcessOf(ctx, nodes), v)} | v in ctx.nodes ::
          KeepsImage(ctx, ProcessOf(ctx, nodes), v) && RealIn(ProcessOf(ctx, nodes), v))
  }

  lemma KeptStands(ctx: Context, nodes: seq<Node>)
    requires Drawing(ctx, nodes) && IdsKept(ctx, nodes) && NoSystemApprover(ctx)
    ensures Standing(ctx, nodes)
  {
    forall v | v in ctx.nodes ensures KeepsImage(ctx, ProcessOf(ctx, nodes), v) && RealIn(ProcessOf(ctx, nodes), v) {
      var k := NodeDrawn(ctx, nodes, v);
      assert ctx.nodes[v].id == v && KeepsId(ctx, nodes, k) && !SystemApproved(ctx, v);
      NodeHeld(ctx, nodes, k);
    }
  }

  lemma StandingProxy(ctx: Context, nodes: seq<Node>, name: string)
    requires Standing(ctx, nodes) && Named(AllAsked(ctx, nodes), name) && name !in ctx.nodes
    ensures ProxyIn(ProcessOf(ctx, nodes), name) && ProcessOf(ctx, nodes)[name].prevs == [BackTo(ctx, nodes, name)]
    ensures RealIn(ProcessOf(ctx, nodes), BackTo(ctx, nodes, name))
  {
    NameHeld(ctx, nodes, name);
    var q := First(AllAsked(ctx, nodes), name);
    AskedNeed(ctx, nodes, |nodes|, q);
    SourceIsNode(ctx, q.0, q.1);
    assert KeepsImage(ctx, ProcessOf(ctx, nodes), q.0);
  }

  /** `u` stands under `name`, or feeds the proxy that does. */
  ghost predicate BehindName(m: NodeMap, u: string, name: string) {
    (name == u && RealIn(m, u)) || (ProxyIn(m, name) && Feeds(m, u, name))
  }

  lemma NameLeadsBack(ctx: Context, nodes: seq<Node>, u: string, name: string)
    requires Standing(ctx, nodes) && (name in ctx.nodes || Named(AllAsked(ctx, nodes), name))
    ensures BehindName(ProcessOf(ctx, nodes), u, name) <==> u == BackTo(ctx, nodes, name)
  {
    var m := ProcessOf(ctx, nodes);
    if name in ctx.nodes {
      assert KeepsImage(ctx, m, name);
    } else {
      StandingProxy(ctx, nodes, name);
      var s := BackTo(ctx, nodes, name);
      assert Precedes(m, s, name);
      FeedsDirectly(m, s, name);
      if Feeds(m, u, name) {
        var q := LastStep(m, u, name);
      }
    }
  }

  /** The canvas node that feeds `v` in the place of predecessor `s`. */
  function Origin(ctx: Context, nodes: seq<Node>, s: string, v: string): string {
    BackTo(ctx, nodes, Reference(ctx, s, v))
  }

  ghost predicate FedBy(ctx: Context, nodes: seq<Node>, u: string, v: string) {
    exists s :: s in Prevs(ctx, v) && Origin(ctx, nodes, s, v) == u
  }

  lemma ReferenceKnown(ctx: Context, nodes: seq<Node>, s: string, v: string)
    requires Drawing(ctx, nodes) && s in Prevs(ctx, v)
    ensures s in ctx.nodes
    ensures Reference(ctx, s, v) in ctx.nodes || Named(AllAsked(ctx, nodes), Reference(ctx, s, v))
  {
    PrevIsSource(ctx, s, v);
    SourceIsNode(ctx, s, v);
    if Reference(ctx, s, v) != s { EdgeNamed(ctx, nodes, s, v); }
  }

  /** What the process, its proxies left out, leads to a canvas node. */
  lemma FedExactly(ctx: Context, nodes: seq<Node>, u: string, v: string)
    requires Standing(ctx, nodes) && Bounded(ctx) && v in ctx.nodes
    ensures EffectiveEdge(ProcessOf(ctx, nodes), u, v) <==> FedBy(ctx, nodes, u, v)
  {
    var m := ProcessOf(ctx, nodes);
    assert KeepsImage(ctx, m, v) && ctx.nodes[v].id == v;
    BehindReal(m, v, u);
    if EffectiveEdge(m, u, v) {
      var p :| p in m[v].prevs && BehindName(m, u, p);
      var s := ImagePrev(ctx, ctx.nodes[v], p);
      ReferenceKnown(ctx, nodes, s, v);
      NameLeadsBack(ctx, nodes, u, p);
    }
    if FedBy(ctx, nodes, u, v) {
      var s :| s in Prevs(ctx, v) && Origin(ctx, nodes, s, v) == u;
      PrevIsSource(ctx, s, v);
      EnteredIsNoStart(ctx, s, v);
      ImageHasPrev(ctx, ctx.nodes[v], s);
      ReferenceKnown(ctx, nodes, s, v);
      NameLeadsBack(ctx, nodes, u, Reference(ctx, s, v));
      assert BehindName(m, u, Reference(ctx, s, v));
    }
  }

  function Origins(ctx: Context, nodes: seq<Node>, v: string, sources: set<string>): set<string> {
    set s | s in sources :: Origin(ctx, nodes, s, v)
  }

  lemma {:induction false} OriginsNotMore(ctx: Context, nodes: seq<Node>, v: string, sources: set<string>)
    ensures |Origins(ctx, nodes, v, sources)| <= |sources|
  {
    if sources == {} {
      assert Origins(ctx, nodes, v, sources) == {};
    } else {
      var s :| s in sources;
      var rest := sources - {s};
      OriginsNotMore(ctx, nodes, v, rest);
      assert Origins(ctx, nodes, v, sources) == Origins(ctx, nodes, v, rest) + {Origin(ctx, nodes, s, v)};
    }
  }

  lemma LedBackTo(ctx: Context, nodes: seq<Node>, s: string, v: string)
    requires Drawing(ctx, nodes) && NoneLost(ctx, nodes) && s in Prevs(ctx, v)
    ensures FedBy(ctx, nodes, s, v)
  {
    ReferenceKnown(ctx, nodes, s, v);
    if Reference(ctx, s, v) == s {
      assert Origin(ctx, nodes, s, v) == s;
    } else {
      assert LeadsBack(ctx, nodes, s, v);
      var c :| c in Prevs(ctx, v) && KindOf(ctx, c).Condition? && BackTo(ctx, nodes, ProxyId(c, v)) == s;
      assert Origin(ctx, nodes, c, v) == s;
    }
  }

  /** If no predecessor is lost, none can be added: there are not more references than predecessors. */
  lemma OriginsAreSources(ctx: Context, nodes: seq<Node>, u: string, v: string)
    requires Drawing(ctx, nodes) && NoneLost(ctx, nodes)
    ensures FedBy(ctx, nodes, u, v) <==> u in Prevs(ctx, v)
  {
    var sources := Elements(Prevs(ctx, v));
    var origins := Origins(ctx, nodes, v, sources);
    forall s | s in sources ensures s in origins { LedBackTo(ctx, nodes, s, v); }
    OriginsNotMore(ctx, nodes, v, sources);
    SubsetSize(sources, origins);
    assert FedBy(ctx, nodes, u, v) <==> u in origins;
  }

  lemma NothingElseReal(ctx: Context, nodes: seq<Node>, v: string)
    requires Standing(ctx, nodes)
    ensures RealIn(ProcessOf(ctx, nodes), v) <==> v in ctx.nodes
  {
    if v in ctx.nodes {
      assert KeepsImage(ctx, ProcessOf(ctx, nodes), v);
    } else {
      NameHeld(ctx, nodes, v);
    }
  }

  lemma ServingGivesBack(ctx: Context, nodes: seq<Node>)
    requires Drawing(ctx, nodes) && Bounded(ctx) && NoSystemApprover(ctx) && NamesServe(ctx, nodes)
    ensures GivesBack(ctx, ProcessOf(ctx, nodes))
  {
    var m := ProcessOf(ctx, nodes);
    KeptStands(ctx, nodes);
    forall u, v ensures SameEdge(ctx, m, u, v) {
      NothingElseReal(ctx, nodes, v);
      PrevIsSource(ctx, u, v);
      if v in ctx.nodes {
        FedExactly(ctx, nodes, u, v);
        OriginsAreSources(ctx, nodes, u, v);
      } else if v in Targets(ctx, u) {
        SourceIsNode(ctx, u, v);
      }
    }
  }

  lemma EnteredNode(ctx: Context, v: string) returns (u: string)
    requires Bounded(ctx) && FromStart(ctx, v) && v in ctx.nodes && !ctx.nodes[v].kind.StartNode?
    ensures v in Targets(ctx, u)
  {
    var s :| IsStart(ctx, s);
    var p :| Connects(ForwardGraph(ctx), p, s, v);
    assert |p| > 1;
    u := p[|p| - 2];
    assert Hop(ForwardGraph(ctx), p, |p| - 2);
  }

  lemma LeftStart(ctx: Context, v: string) returns (w: string)
    requires ReachesAnEnd(ctx, v) && IsStart(ctx, v)
    ensures w in Targets(ctx, v)
  {
    var e :| IsEnd(ctx, e) && Reaches(ForwardGraph(ctx), v, e);
    var p :| Connects(ForwardGraph(ctx), p, v, e);
    assert |p| > 1 && Hop(ForwardGraph(ctx), p, 0);
    w := p[1];
  }

  /** If the canvas is given back, every canvas node is in the drawn graph. */
  lemma GivenBackIsReal(ctx: Context, nodes: seq<Node>, v: string)
    requires Drawing(ctx, nodes) && Accepted(ctx) && GivesBack(ctx, ProcessOf(ctx, nodes)) && v in ctx.nodes
    ensures RealIn(ProcessOf(ctx, nodes), v)
  {
    var m := ProcessOf(ctx, nodes);
    AcceptedShape(ctx, v);
    if ctx.nodes[v].kind.StartNode? {
      var w := LeftStart(ctx, v);
      assert SameEdge(ctx, m, v, w);
      var q := LastStep(m, v, w);
    } else {
      var u := EnteredNode(ctx, v);
      assert SameEdge(ctx, m, u, v);
    }
  }

  lemma GivenBackStands(ctx: Context, nodes: seq<Node>)
    requires Drawing(ctx, nodes) && Accepted(ctx) && GivesBack(ctx, ProcessOf(ctx, nodes))
    ensures NoSystemApprover(ctx) && IdsKept(ctx, nodes)
  {
    var m := ProcessOf(ctx, nodes);
    forall k | 0 <= k < |nodes| ensures KeepsId(ctx, nodes, k) {
      GivenBackIsReal(ctx, nodes, nodes[k].id);
      NodeHeld(ctx, nodes, k);
    }
    forall v | v in ctx.nodes ensures !SystemApproved(ctx, v) {
      var k := NodeDrawn(ctx, nodes, v);
      assert ctx.nodes[v].id == v && KeepsId(ctx, nodes, k);
      NodeHeld(ctx, nodes, k);
      GivenBackIsReal(ctx, nodes, v);
    }
  }

  lemma GivenBackServes(ctx: Context, nodes: seq<Node>)
    requires Standing(ctx, nodes) && Bounded(ctx) && GivesBack(ctx, ProcessOf(ctx, nodes))
    ensures NoneLost(ctx, nodes)
  {
    forall s, t | KindOf(ctx, t).Splitting() && s in Prevs(ctx, t) && KindOf(ctx, s).Condition?
      ensures LeadsBack(ctx, nodes, s, t)
    {
      PrevIsSource(ctx, s, t);
      SourceIsNode(ctx, s, t);
      assert SameEdge(ctx, ProcessOf(ctx, nodes), s, t);
      FedExactly(ctx, nodes, s, t);
      var c :| c in Prevs(ctx, t) && Origin(ctx, nodes, c, t) == s;
      ReferenceKnown(ctx, nodes, c, t);
    }
  }

  /** Round trip: leaving the proxies out of the converted process gives back exactly the canvas edges if and only if
      no user node is assigned to the proxies' own user and the generated names serve. */
  lemma RoundTripExactly(ctx: Context, nodes: seq<Node>)
    requires Drawing(ctx, nodes) && Accepted(ctx)
    ensures GivesBack(ctx, ProcessOf(ctx, nodes)) <==> NoSystemApprover(ctx) && NamesServe(ctx, nodes)
  {
    AcceptedBase(ctx);
    if GivesBack(ctx, ProcessOf(ctx, nodes)) {
      GivenBackStands(ctx, nodes);
      KeptStands(ctx, nodes);
      GivenBackServes(ctx, nodes);
    }
    if NoSystemApprover(ctx) && NamesServe(ctx, nodes) { ServingGivesBack(ctx, nodes); }
  }

  // ---------------------------------------------------------------- collapsing terminates

  ghost function Ancestors(ctx: Context, v: string): set<string> {
    set u | u in ctx.nodes && Reaches(ForwardGraph(ctx), u, v)
  }

  ghost function Depth(ctx: Context): string -> nat {
    v => |Ancestors(ctx, v)|
  }

  lemma DepthRises(ctx: Context, u: string, v: string)
    requires Acyclic(ForwardGraph(ctx)) && Endpoints(ctx) && v in Targets(ctx, u)
    ensures Depth(ctx)(u) < Depth(ctx)(v)
  {
    var g := ForwardGraph(ctx);
    forall a | a in Ancestors(ctx, u) ensures a in Ancestors(ctx, v) { ReachesOne(g, a, u, v); }
    ReachesSelf(g, v);
    SourceIsNode(ctx, u, v);
    if v in Ancestors(ctx, u) {
      var p :| Connects(g, p, v, u);
      StepCloses(g, p, v);
    }
    SubsetSize(Ancestors(ctx, u), Ancestors(ctx, v));
  }

  ghost function Longest(m: NodeMap): (n: nat)
    ensures forall v | v in m :: |v| <= n
  {
    if m == map[] then 0 else
    var lengths := set v | v in m.Keys :: |v|;
    assert forall v | v in m :: |v| in lengths;
    var v0 :| v0 in m;
    assert |v0| in lengths;
    MaxOf(lengths)
  }

  /** Images count by their depth in the canvas, proxies below them by the length of their name. */
  ghost function CollapseRank(ctx: Context, m: NodeMap): string -> nat {
    v => RankIn(ctx, m, v)
  }

  ghost function RankIn(ctx: Context, m: NodeMap, v: string): nat {
    if KeepsImage(ctx, m, v) then Longest(m) + 1 + |Ancestors(ctx, v)| else |v|
  }

  lemma ImageRankRises(ctx: Context, m: NodeMap, p: string, q: string)
    requires WellBuilt(ctx) && Endpoints(ctx) && Acyclic(ForwardGraph(ctx))
    requires KeepsImage(ctx, m, p) && ProxyIn(m, p) && q in m && Precedes(m, q, p)
    ensures CollapseRank(ctx, m)(q) < CollapseRank(ctx, m)(p)
  {
    assert ctx.nodes[p].id == p && ctx.nodes[p].kind.User?;
    PrevIsSource(ctx, q, p);
    DepthRises(ctx, q, p);
  }

  lemma ProxyRankRises(ctx: Context, m: NodeMap, p: string, q: string)
    requires Endpoints(ctx) && p in m && !KeepsImage(ctx, m, p) && ForEdge(ctx, m[p]) && m[p].id == p
    requires ProxyIn(m, q) && Precedes(m, q, p)
    ensures CollapseRank(ctx, m)(q) < CollapseRank(ctx, m)(p)
  {
    var s, t :| ProxyEdge(ctx, s, t) && m[p] == ProxyNode(s, t);
    SourceIsNode(ctx, s, t);
    assert q == s && |q| < |p|;
    assert !KeepsImage(ctx, m, q);
  }

  lemma {:induction false} KeyedIds(nodes: seq<EngineNode>)
    ensures forall v | v in KeyById(nodes) :: KeyById(nodes)[v].id == v
  {
    if nodes != [] { KeyedIds(nodes[..|nodes| - 1]); }
  }

  /** Resolving predecessors through proxies terminates on every converted canvas, whoever approves and
      however the proxies are named. */
  lemma CollapseTerminates(ctx: Context, nodes: seq<Node>)
    requires Drawing(ctx, nodes) && Acyclic(ForwardGraph(ctx))
    ensures ProxiesRanked(ProcessOf(ctx, nodes), CollapseRank(ctx, ProcessOf(ctx, nodes)))
  {
    var m := ProcessOf(ctx, nodes);
    KeyedIds(Converted(ctx, nodes).value.nodes);
    forall p, q | ProxyIn(m, p) && ProxyIn(m, q) && Precedes(m, q, p)
      ensures CollapseRank(ctx, m)(q) < CollapseRank(ctx, m)(p)
    {
      ImageOrProxy(ctx, nodes, p);
      if KeepsImage(ctx, m, p) { ImageRankRises(ctx, m, p, q); } else { ProxyRankRises(ctx, m, p, q); }
    }
  }

  // ---------------------------------------------------------------- the drawn graph

  lemma InsertedIsProxy(ctx: Context, m: NodeMap, v: string)
    requires Rendered(ctx, m) && v in m && v !in ctx.nodes
    ensures ProxyIn(m, v)
  {
    assert Inserted(ctx, m, v);
    var s, t :| IsProxyNode(ctx, m, v, s, t);
  }

  /** How `p` got among the predecessors of canvas node `v`. */
  lemma PrevOrigin(ctx: Context, m: NodeMap, p: string, v: string) returns (s: string)
    requires KeepsImage(ctx, m, v) && WellBuilt(ctx) && Endpoints(ctx) && Precedes(m, p, v)
    ensures v in Targets(ctx, s) && s in ctx.nodes
    ensures p == s || (p == ProxyId(s, v) && ProxyEdge(ctx, s, v))
  {
    assert ctx.nodes[v].id == v;
    s := ImagePrev(ctx, ctx.nodes[v], p);
    PrevIsSource(ctx, s, v);
    SourceIsNode(ctx, s, v);
  }

  /** If `v` is a proxy, its source lies at depth `d` or deeper. */
  ghost predicate UpToSource(ctx: Context, m: NodeMap, v: string, d: nat) {
    forall s, t {:trigger IsProxyNode(ctx, m, v, s, t)} | IsProxyNode(ctx, m, v, s, t) :: d <= Depth(ctx)(s)
  }

  /** Depth `d` is not above `v`: not above the canvas node, not above the source of the proxy. */
  ghost predicate UpTo(ctx: Context, m: NodeMap, v: string, d: nat) {
    (v in ctx.nodes ==> d <= Depth(ctx)(v)) && UpToSource(ctx, m, v, d)
  }

  lemma StepRises(ctx: Context, m: NodeMap, p: string, v: string, d: nat)
    requires Rendered(ctx, m) && WellBuilt(ctx) && Endpoints(ctx) && Acyclic(ForwardGraph(ctx))
    requires Precedes(m, p, v) && v in ctx.nodes && UpTo(ctx, m, p, d)
    ensures d < Depth(ctx)(v)
  {
    assert KeepsImage(ctx, m, v);
    var s := PrevOrigin(ctx, m, p, v);
    DepthRises(ctx, s, v);
    if p != s { assert IsProxyNode(ctx, m, ProxyId(s, v), s, v); }
  }

  lemma StepStaysUp(ctx: Context, m: NodeMap, p: string, v: string, d: nat)
    requires Rendered(ctx, m) && Endpoints(ctx) && Precedes(m, p, v) && UpTo(ctx, m, p, d)
    ensures UpToSource(ctx, m, v, d)
  {
    forall s, t | IsProxyNode(ctx, m, v, s, t) ensures d <= Depth(ctx)(s) { SourceIsNode(ctx, s, t); }
  }

  lemma RealUpToItself(ctx: Context, m: NodeMap, v: string)
    requires RealIn(m, v)
    ensures UpTo(ctx, m, v, Depth(ctx)(v))
  {
  }

  /** A chain of the process climbs the canvas: to a canvas node strictly, to a proxy up to its source. */
  lemma {:induction false} ChainRises(ctx: Context, m: NodeMap, c: seq<string>)
    requires Rendered(ctx, m) && WellBuilt(ctx) && Endpoints(ctx) && Acyclic(ForwardGraph(ctx)) && Chain(m, c)
    ensures c[|c| - 1] in ctx.nodes ==> Depth(ctx)(c[0]) < Depth(ctx)(c[|c| - 1])
    ensures UpToSource(ctx, m, c[|c| - 1], Depth(ctx)(c[0]))
  {
    var v, p, d := c[|c| - 1], c[|c| - 2], Depth(ctx)(c[0]);
    assert Precedes(m, c[|c| - 2], c[|c| - 1]);
    if |c| > 2 {
      var before := c[..|c| - 1];
      assert Chain(m, before) && before[|before| - 1] == p && before[0] == c[0];
      ChainRises(ctx, m, before);
    } else {
      RealUpToItself(ctx, m, p);
    }
    if v in ctx.nodes { StepRises(ctx, m, p, v, d); }
    StepStaysUp(ctx, m, p, v, d);
  }

  lemma EffectiveRises(ctx: Context, m: NodeMap, u: string, v: string)
    requires Rendered(ctx, m) && WellBuilt(ctx) && FreshNames(ctx) && Endpoints(ctx) && Acyclic(ForwardGraph(ctx))
    requires EffectiveEdge(m, u, v)
    ensures Depth(ctx)(u) < Depth(ctx)(v)
  {
    if v !in ctx.nodes { InsertedIsProxy(ctx, m, v); }
    var c :| Chain(m, c) && c[0] == u && c[|c| - 1] == v;
    ChainRises(ctx, m, c);
  }

  /** `eff` draws the process with its proxies left out. */
  ghost predicate Draws(eff: Graph, m: NodeMap) {
    Tidy(eff) && forall u, v :: v in Succ(eff, u) <==> EffectiveEdge(m, u, v)
  }

  /** With fresh names the drawn graph is acyclic like the canvas, whoever approves. */
  lemma DrawnGraphAcyclic(ctx: Context, nodes: seq<Node>, eff: Graph)
    requires Drawing(ctx, nodes) && FreshNames(ctx) && Accepted(ctx) && Draws(eff, ProcessOf(ctx, nodes))
    ensures Acyclic(eff)
  {
    AcceptedBase(ctx);
    ConvertedRenders(ctx, nodes);
    forall u, v | v in Succ(eff, u) ensures Depth(ctx)(u) < Depth(ctx)(v) {
      EffectiveRises(ctx, ProcessOf(ctx, nodes), u, v);
    }
    RankedIsAcyclic(eff, Depth(ctx));
  }
}
