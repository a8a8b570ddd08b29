/** The flow canvas as drawn, and the lookup context the validator and the converter share. */
module CanvasModel {
  import opened Prelude
  import opened Graphs

  datatype NodeKind =
    | StartNode | EndNode | User | Condition | Parallel | Inclusion | Selective | Automation | ChatGroup
    | Unsupported(name: string)
  {
    /** Gateways that wait for the branches running into them. */
    predicate Merge() { Parallel? || Inclusion? }
    /** Gateways whose incoming gateway edges need a proxy node. */
    predicate Splitting() { Parallel? || Inclusion? || Selective? }
  }

  /** A canvas node with the properties its handler reads. */
  datatype Node = Node(
    id: string, kind: NodeKind, approved: seq<string>, cosigned: bool, codebook: int, compensation: string)

  datatype Edge = Edge(source: string, target: string, expression: string)

  datatype Context = Context(
    nodes: map<string, Node>, edges: map<string, seq<Edge>>, prevs: map<string, seq<string>>)

  function OutEdges(ctx: Context, id: string): seq<Edge> {
    Bucket(ctx.edges, id)
  }

  function TargetsOf(edges: seq<Edge>): (t: seq<string>)
    ensures |t| == |edges| && forall k | 0 <= k < |edges| :: t[k] == edges[k].target
  {
    seq(|edges|, k requires 0 <= k < |edges| => edges[k].target)
  }

  function Targets(ctx: Context, id: string): seq<string> { TargetsOf(OutEdges(ctx, id)) }

  function Prevs(ctx: Context, id: string): seq<string> {
    Bucket(ctx.prevs, id)
  }

  /** A missing node reads as a node of no supported kind. */
  function KindOf(ctx: Context, id: string): NodeKind {
    if id in ctx.nodes then ctx.nodes[id].kind else Unsupported("")
  }

  function ForwardGraph(ctx: Context): (g: Graph)
    ensures forall id :: Succ(g, id) == Targets(ctx, id)
  {
    map id | id in ctx.edges :: Targets(ctx, id)
  }

  function BackwardGraph(ctx: Context): (g: Graph)
    ensures forall id :: Succ(g, id) == Prevs(ctx, id)
  {
    ctx.prevs
  }

  ghost predicate Balanced(ctx: Context, u: string, v: string) {
    multiset(Prevs(ctx, v))[u] == multiset(Targets(ctx, u))[v]
  }

  /** Both indexes list the same edges, with the same multiplicity. */
  ghost predicate WellBuilt(ctx: Context) {
    && (forall u, v :: Balanced(ctx, u, v))
    && (forall id | id in ctx.nodes :: ctx.nodes[id].id == id)
  }

  lemma IndexesReverse(ctx: Context)
    requires WellBuilt(ctx)
    ensures Reverses(ForwardGraph(ctx), BackwardGraph(ctx))
  {
    forall a, b ensures b in Targets(ctx, a) <==> a in Prevs(ctx, b) {
      assert Balanced(ctx, a, b);
    }
  }

  // ---------------------------------------------------------------- building the context

  function From(edges: seq<Edge>, id: string): (r: seq<Edge>)
    ensures forall e | e in r :: e in edges && e.source == id
    ensures forall e | e in edges && e.source == id :: e in r
  {
    if edges == [] then [] else
    var last := edges[|edges| - 1];
    var r := From(edges[..|edges| - 1], id);
    assert edges == edges[..|edges| - 1] + [last];
    if last.source == id then r + [last] else r
  }

  function Into(edges: seq<Edge>, id: string): seq<string> {
    if edges == [] then [] else
    var last := edges[|edges| - 1];
    var r := Into(edges[..|edges| - 1], id);
    if last.target == id then r + [last.source] else r
  }

  lemma IntoCount(edges: seq<Edge>, u: string, v: string)
    requires |edges| > 0
    ensures var rest, last := edges[..|edges| - 1], edges[|edges| - 1];
      multiset(Into(edges, v))[u] == multiset(Into(rest, v))[u] + if Joins(last, u, v) then 1 else 0
  {
  }

  lemma FromCount(edges: seq<Edge>, u: string, v: string)
    requires |edges| > 0
    ensures var rest, last := edges[..|edges| - 1], edges[|edges| - 1];
      multiset(TargetsOf(From(edges, u)))[v] == multiset(TargetsOf(From(rest, u)))[v] + if Joins(last, u, v) then 1 else 0
  {
    var rest, last := edges[..|edges| - 1], edges[|edges| - 1];
    if last.source == u {
      assert TargetsOf(From(edges, u)) == TargetsOf(From(rest, u)) + [last.target];
    }
  }

  lemma {:induction false} SameMultiplicity(edges: seq<Edge>, u: string, v: string)
    ensures multiset(Into(edges, v))[u] == multiset(TargetsOf(From(edges, u)))[v]
  {
    if edges != [] {
      SameMultiplicity(edges[..|edges| - 1], u, v);
      IntoCount(edges, u, v);
      FromCount(edges, u, v);
    }
  }

  /** The context indexes exactly these nodes and edges. */
  ghost predicate Indexes(ctx: Context, nodes: seq<Node>, edges: seq<Edge>) {
    && (forall id :: OutEdges(ctx, id) == From(edges, id) && Prevs(ctx, id) == Into(edges, id))
    && (forall id :: id in ctx.nodes <==> exists k :: 0 <= k < |nodes| && nodes[k].id == id)
    && (forall id | id in ctx.nodes :: ctx.nodes[id] in nodes && ctx.nodes[id].id == id)
  }

  lemma IndexedIsWellBuilt(ctx: Context, nodes: seq<Node>, edges: seq<Edge>)
    requires Indexes(ctx, nodes, edges)
    ensures WellBuilt(ctx)
  {
    forall u, v ensures Balanced(ctx, u, v) {
      SameMultiplicity(edges, u, v);
    }
  }

  function NodeIndex(nodes: seq<Node>): (index: map<string, Node>)
    ensures forall id :: id in index <==> exists k :: 0 <= k < |nodes| && nodes[k].id == id
    ensures forall id | id in index :: index[id] in nodes && index[id].id == id
  {
    if nodes == [] then map[] else
    var rest, last := nodes[..|nodes| - 1], nodes[|nodes| - 1];
    assert nodes == rest + [last];
    NodeIndex(rest)[last.id := last]
  }

  function OutIndex(edges: seq<Edge>): (index: map<string, seq<Edge>>)
    ensures forall id :: Bucket(index, id) == From(edges, id)
  {
    if edges == [] then map[] else
    var last := edges[|edges| - 1];
    AddTo(OutIndex(edges[..|edges| - 1]), last.source, last)
  }

  function PrevIndex(edges: seq<Edge>): (index: map<string, seq<string>>)
    ensures forall id :: Bucket(index, id) == Into(edges, id)
  {
    if edges == [] then map[] else
    var last := edges[|edges| - 1];
    AddTo(PrevIndex(edges[..|edges| - 1]), last.target, last.source)
  }

  /** The lookup context of nodes and edges. */
  function ContextOf(nodes: seq<Node>, edges: seq<Edge>): (ctx: Context)
    ensures Indexes(ctx, nodes, edges)
  {
    var ctx := Context(NodeIndex(nodes), OutIndex(edges), PrevIndex(edges));
    assert forall id :: OutEdges(ctx, id) == Bucket(ctx.edges, id) && Prevs(ctx, id) == Bucket(ctx.prevs, id);
    ctx
  }

  method IndexNodes(nodes: seq<Node>) returns (index: map<string, Node>)
    ensures index == NodeIndex(nodes)
  {
    index := map[];
    for k := 0 to |nodes|
      invariant index == NodeIndex(nodes[..k])
    {
      assert nodes[..k + 1][..k] == nodes[..k];
      index := index[nodes[k].id := nodes[k]];
    }
    assert nodes[..|nodes|] == nodes;
  }

  lemma IndexStep(edges: seq<Edge>, k: nat)
    requires k < |edges|
    ensures OutIndex(edges[..k + 1]) == AddTo(OutIndex(edges[..k]), edges[k].source, edges[k])
    ensures PrevIndex(edges[..k + 1]) == AddTo(PrevIndex(edges[..k]), edges[k].target, edges[k].source)
  {
    assert edges[..k + 1][..k] == edges[..k];
  }

  method IndexEdges(edges: seq<Edge>) returns (out: map<string, seq<Edge>>, prevs: map<string, seq<string>>)
    ensures out == OutIndex(edges) && prevs == PrevIndex(edges)
  {
    out, prevs := map[], map[];
    for k := 0 to |edges|
      invariant out == OutIndex(edges[..k]) && prevs == PrevIndex(edges[..k])
    {
      IndexStep(edges, k);
      var e := edges[k];
      out, prevs := AddTo(out, e.source, e), AddTo(prevs, e.target, e.source);
    }
    assert edges[..|edges|] == edges;
  }

  method BuildContext(nodes: seq<Node>, edges: seq<Edge>) returns (ctx: Context)
    ensures ctx == ContextOf(nodes, edges) && Indexes(ctx, nodes, edges)
  {
    var index := IndexNodes(nodes);
    var out, prevs := IndexEdges(edges);
    ctx := Context(index, out, prevs);
  }

  /** `ps` lists, in order, the positions of the edges out of `id`. */
  ghost predicate OutPositions(edges: seq<Edge>, id: string, ps: seq<nat>) {
    && (forall i, j | 0 <= i < j < |ps| :: ps[i] < ps[j])
    && (forall k: nat :: k in ps <==> k < |edges| && edges[k].source == id)
  }

  /** `ps` lists, in order, the positions of the edges into `id`. */
  ghost predicate InPositions(edges: seq<Edge>, id: string, ps: seq<nat>) {
    && (forall i, j | 0 <= i < j < |ps| :: ps[i] < ps[j])
    && (forall k: nat :: k in ps <==> k < |edges| && edges[k].target == id)
  }

  lemma NextPosition(ps: seq<nat>, last: nat, qualifies: bool, ps': seq<nat>)
    requires forall i, j | 0 <= i < j < |ps| :: ps[i] < ps[j]
    requires forall k | k in ps :: k < last
    requires ps' == if qualifies then ps + [last] else ps
    ensures forall i, j | 0 <= i < j < |ps'| :: ps'[i] < ps'[j]
    ensures forall k: nat :: k in ps' <==> k in ps || (k == last && qualifies)
  {
    forall i, j | 0 <= i < j < |ps'| ensures ps'[i] < ps'[j] { assert ps'[i] == ps[i] && ps[i] in ps; }
  }

  /** The out-index lists the edges of a node in the order they are drawn. */
  lemma {:induction false} FromInOrder(edges: seq<Edge>, id: string) returns (ps: seq<nat>)
    ensures OutPositions(edges, id, ps) && |From(edges, id)| == |ps|
    ensures forall j | 0 <= j < |ps| :: ps[j] in ps && From(edges, id)[j] == edges[ps[j]]
  {
    ps := [];
    if edges != [] {
      var rest, last := edges[..|edges| - 1], |edges| - 1;
      ps := FromInOrder(rest, id);
      var before := ps;
      if edges[last].source == id { ps := ps + [last]; }
      NextPosition(before, last, edges[last].source == id, ps);
    }
  }

  /** So does the index of predecessors. */
  lemma {:induction false} IntoInOrder(edges: seq<Edge>, id: string) returns (ps: seq<nat>)
    ensures InPositions(edges, id, ps) && |Into(edges, id)| == |ps|
    ensures forall j | 0 <= j < |ps| :: ps[j] in ps && Into(edges, id)[j] == edges[ps[j]].source
  {
    ps := [];
    if edges != [] {
      var rest, last := edges[..|edges| - 1], |edges| - 1;
      ps := IntoInOrder(rest, id);
      var before := ps;
      if edges[last].target == id { ps := ps + [last]; }
      NextPosition(before, last, edges[last].target == id, ps);
    }
  }

  // ---------------------------------------------------------------- overlapping edges

  predicate Joins(e: Edge, s: string, t: string) { e.source == s && e.target == t }

  predicate HasPair(edges: seq<Edge>, s: string, t: string) {
    exists k :: 0 <= k < |edges| && Joins(edges[k], s, t)
  }

  /** Among the edges between the same two nodes: the first with an expression, else the first. */
  function Preferred(edges: seq<Edge>, s: string, t: string): (r: Edge)
    requires HasPair(edges, s, t)
    ensures r in edges && Joins(r, s, t) && Chosen(edges, s, t, r)
  {
    var last := edges[|edges| - 1];
    var rest := edges[..|edges| - 1];
    assert edges == rest + [last];
    if HasPair(rest, s, t) then
      var kept := Preferred(rest, s, t);
      ChosenNext(edges, s, t, kept);
      Better(kept, last, s, t)
    else
      ChosenFirst(edges, s, t);
      last
  }

  ghost predicate Chosen(edges: seq<Edge>, s: string, t: string, r: Edge) {
    exists k: nat :: k < |edges| && edges[k] == r && ChosenAt(edges, s, t, k)
  }

  lemma ChosenFirst(edges: seq<Edge>, s: string, t: string)
    requires HasPair(edges, s, t) && !HasPair(edges[..|edges| - 1], s, t)
    ensures Chosen(edges, s, t, edges[|edges| - 1]) && Joins(edges[|edges| - 1], s, t)
  {
    var rest, last := edges[..|edges| - 1], |edges| - 1;
    forall j | 0 <= j < last ensures !Joins(edges[j], s, t) { assert rest[j] == edges[j]; }
    assert ChosenAt(edges, s, t, last);
  }

  lemma ChosenNext(edges: seq<Edge>, s: string, t: string, kept: Edge)
    requires |edges| > 0 && Chosen(edges[..|edges| - 1], s, t, kept)
    ensures Chosen(edges, s, t, Better(kept, edges[|edges| - 1], s, t))
  {
    var rest, last := edges[..|edges| - 1], |edges| - 1;
    var k: nat :| k < |rest| && rest[k] == kept && ChosenAt(rest, s, t, k);
    forall j | 0 <= j < last ensures edges[j] == rest[j] {}
    assert ChosenAt(edges, s, t, if Better(kept, edges[last], s, t) == kept then k else last);
  }

  /** The first edge of the pair that has an expression, or the first of all if none has one. */
  ghost predicate ChosenAt(edges: seq<Edge>, s: string, t: string, k: nat)
    requires k < |edges|
  {
    && Joins(edges[k], s, t)
    && (Blank(edges[k].expression) ==> forall j | 0 <= j < |edges| && Joins(edges[j], s, t) :: Blank(edges[j].expression))
    && (Blank(edges[k].expression) ==> forall j | 0 <= j < k :: !Joins(edges[j], s, t))
    && (!Blank(edges[k].expression) ==> forall j | 0 <= j < k && Joins(edges[j], s, t) :: Blank(edges[j].expression))
  }

  function Better(kept: Edge, e: Edge, s: string, t: string): Edge {
    if Joins(e, s, t) && Blank(kept.expression) && !Blank(e.expression) then e else kept
  }

  ghost predicate OnePerPair(unique: seq<Edge>) {
    forall i, j | 0 <= i < j < |unique| :: !Joins(unique[j], unique[i].source, unique[i].target)
  }

  /** Every kept edge is the preferred copy of its pair. */
  ghost predicate KeepsPreferred(unique: seq<Edge>, edges: seq<Edge>) {
    forall i | 0 <= i < |unique| ::
      HasPair(edges, unique[i].source, unique[i].target)
      && unique[i] == Preferred(edges, unique[i].source, unique[i].target)
  }

  ghost predicate SamePairs(unique: seq<Edge>, edges: seq<Edge>) {
    forall s, t :: HasPair(unique, s, t) <==> HasPair(edges, s, t)
  }

  lemma PairAppended(edges: seq<Edge>, e: Edge, s: string, t: string)
    ensures HasPair(edges + [e], s, t) <==> HasPair(edges, s, t) || Joins(e, s, t)
  {
    var more := edges + [e];
    if HasPair(edges, s, t) {
      var k :| 0 <= k < |edges| && Joins(edges[k], s, t);
      assert Joins(more[k], s, t);
    }
    assert more[|edges|] == e;
  }

  lemma PreferredAppended(edges: seq<Edge>, e: Edge, s: string, t: string)
    requires HasPair(edges, s, t)
    ensures HasPair(edges + [e], s, t)
    ensures Preferred(edges + [e], s, t) == Better(Preferred(edges, s, t), e, s, t)
  {
    PairAppended(edges, e, s, t);
    assert (edges + [e])[..|edges|] == edges;
  }

  lemma MergeCopy(kept: seq<Edge>, edges: seq<Edge>, e: Edge, i: nat)
    requires KeepsPreferred(kept, edges) && OnePerPair(kept) && i < |kept| && Joins(kept[i], e.source, e.target)
    ensures KeepsPreferred(kept[i := Better(kept[i], e, e.source, e.target)], edges + [e])
  {
    var after := kept[i := Better(kept[i], e, e.source, e.target)];
    forall j | 0 <= j < |after|
      ensures HasPair(edges + [e], after[j].source, after[j].target)
      ensures after[j] == Preferred(edges + [e], after[j].source, after[j].target)
    {
      assert HasPair(edges, kept[j].source, kept[j].target);
      PreferredAppended(edges, e, kept[j].source, kept[j].target);
      assert j != i ==> !Joins(kept[i], kept[j].source, kept[j].target);
    }
  }

  lemma AddCopy(kept: seq<Edge>, edges: seq<Edge>, e: Edge)
    requires KeepsPreferred(kept, edges) && !HasPair(edges, e.source, e.target)
    ensures KeepsPreferred(kept + [e], edges + [e])
  {
    var after := kept + [e];
    forall j | 0 <= j < |after|
      ensures HasPair(edges + [e], after[j].source, after[j].target)
      ensures after[j] == Preferred(edges + [e], after[j].source, after[j].target)
    {
      if j < |kept| {
        PreferredAppended(edges, e, kept[j].source, kept[j].target);
      } else {
        PairAppended(edges, e, e.source, e.target);
        assert (edges + [e])[..|edges|] == edges;
      }
    }
  }

  /** The position kept for each pair of nodes. */
  ghost predicate Positions(seen: map<(string, string), nat>, unique: seq<Edge>, edges: seq<Edge>) {
    && (forall p | p in seen :: seen[p] < |unique| && Joins(unique[seen[p]], p.0, p.1))
    && (forall i | 0 <= i < |unique| ::
          (unique[i].source, unique[i].target) in seen && seen[(unique[i].source, unique[i].target)] == i)
    && (forall s, t :: (s, t) in seen <==> HasPair(edges, s, t))
  }

  lemma PositionsReplaced(seen: map<(string, string), nat>, unique: seq<Edge>, edges: seq<Edge>, e: Edge, kept: Edge)
    requires Positions(seen, unique, edges) && (e.source, e.target) in seen && Joins(kept, e.source, e.target)
    ensures Positions(seen, unique[seen[(e.source, e.target)] := kept], edges + [e])
  {
    forall s, t ensures (s, t) in seen <==> HasPair(edges + [e], s, t) {
      PairAppended(edges, e, s, t);
    }
  }

  lemma PositionsAdded(seen: map<(string, string), nat>, unique: seq<Edge>, edges: seq<Edge>, e: Edge)
    requires Positions(seen, unique, edges) && (e.source, e.target) !in seen
    ensures Positions(seen[(e.source, e.target) := |unique|], unique + [e], edges + [e])
  {
    forall s, t ensures (s, t) in seen[(e.source, e.target) := |unique|] <==> HasPair(edges + [e], s, t) {
      PairAppended(edges, e, s, t);
    }
  }

  function PositionOf(unique: seq<Edge>, s: string, t: string): (i: nat)
    requires HasPair(unique, s, t)
    ensures i < |unique| && Joins(unique[i], s, t)
  {
    var last := |unique| - 1;
    if Joins(unique[last], s, t) then last else
    assert HasPair(unique[..last], s, t) by {
      var k :| 0 <= k < |unique| && Joins(unique[k], s, t);
      assert Joins(unique[..last][k], s, t);
    }
    PositionOf(unique[..last], s, t)
  }

  /** The edges without overlaps: one per pair of nodes, in the order in which the pairs first occur. */
  function Deduplicated(edges: seq<Edge>): seq<Edge> {
    if edges == [] then [] else
    var kept, e := Deduplicated(edges[..|edges| - 1]), edges[|edges| - 1];
    if HasPair(kept, e.source, e.target) then
      var i := PositionOf(kept, e.source, e.target);
      kept[i := Better(kept[i], e, e.source, e.target)]
    else
      kept + [e]
  }

  lemma ReplacedPairs(unique: seq<Edge>, edges: seq<Edge>, e: Edge, i: nat, kept: Edge)
    requires OnePerPair(unique) && SamePairs(unique, edges) && i < |unique|
    requires Joins(unique[i], e.source, e.target) && Joins(kept, e.source, e.target)
    ensures OnePerPair(unique[i := kept]) && SamePairs(unique[i := kept], edges + [e])
  {
    var after := unique[i := kept];
    forall s, t ensures HasPair(after, s, t) <==> HasPair(edges + [e], s, t) {
      PairAppended(edges, e, s, t);
      assert HasPair(unique, s, t) <==> HasPair(edges, s, t);
      if HasPair(unique, s, t) {
        var k :| 0 <= k < |unique| && Joins(unique[k], s, t);
        assert Joins(after[k], s, t);
      }
      if HasPair(after, s, t) {
        var k :| 0 <= k < |after| && Joins(after[k], s, t);
        assert Joins(unique[k], s, t);
      }
    }
  }

  lemma AddedPairs(unique: seq<Edge>, edges: seq<Edge>, e: Edge)
    requires OnePerPair(unique) && SamePairs(unique, edges) && !HasPair(unique, e.source, e.target)
    ensures OnePerPair(unique + [e]) && SamePairs(unique + [e], edges + [e])
  {
    forall s, t ensures HasPair(unique + [e], s, t) <==> HasPair(edges + [e], s, t) {
      PairAppended(edges, e, s, t);
      PairAppended(unique, e, s, t);
    }
    forall i, j | 0 <= i < j < |unique + [e]| ensures !Joins((unique + [e])[j], (unique + [e])[i].source, (unique + [e])[i].target) {
      if j == |unique| { assert !Joins(unique[i], e.source, e.target); }
    }
  }

  /** The pair of `e` occurs before that of `f` does. */
  ghost predicate OccursBefore(edges: seq<Edge>, e: Edge, f: Edge) {
    exists k :: 0 <= k < |edges| && Joins(edges[k], e.source, e.target)
      && forall j | 0 <= j <= k :: !Joins(edges[j], f.source, f.target)
  }

  /** The pairs keep the order in which they occur first. */
  ghost predicate KeepsOrder(unique: seq<Edge>, edges: seq<Edge>) {
    forall i, j | 0 <= i < j < |unique| :: OccursBefore(edges, unique[i], unique[j])
  }

  lemma StaysBefore(edges: seq<Edge>, last: Edge, e: Edge, f: Edge)
    requires OccursBefore(edges, e, f)
    ensures OccursBefore(edges + [last], e, f)
  {
    var k :| 0 <= k < |edges| && Joins(edges[k], e.source, e.target)
      && forall j | 0 <= j <= k :: !Joins(edges[j], f.source, f.target);
    assert (edges + [last])[k] == edges[k];
  }

  lemma NewComesLast(edges: seq<Edge>, e: Edge, f: Edge)
    requires HasPair(edges, e.source, e.target) && !HasPair(edges, f.source, f.target)
    ensures OccursBefore(edges + [f], e, f)
  {
    var k :| 0 <= k < |edges| && Joins(edges[k], e.source, e.target);
    assert (edges + [f])[k] == edges[k];
  }

  lemma {:induction false} DeduplicatedInOrder(edges: seq<Edge>)
    ensures KeepsOrder(Deduplicated(edges), edges)
  {
    if edges != [] {
      var rest, e := edges[..|edges| - 1], edges[|edges| - 1];
      var kept, unique := Deduplicated(rest), Deduplicated(edges);
      assert edges == rest + [e];
      DeduplicatedInOrder(rest);
      DeduplicatedExactly(rest);
      forall i, j | 0 <= i < j < |unique| ensures OccursBefore(edges, unique[i], unique[j]) {
        if j < |kept| {
          assert OccursBefore(rest, kept[i], kept[j]);
          StaysBefore(rest, e, kept[i], kept[j]);
          assert Joins(unique[i], kept[i].source, kept[i].target) && Joins(unique[j], kept[j].source, kept[j].target);
        } else {
          assert HasPair(rest, kept[i].source, kept[i].target);
          NewComesLast(rest, kept[i], e);
        }
      }
    }
  }

  /** One edge per pair of nodes: the first with an expression, else the first. */
  lemma {:induction false} DeduplicatedExactly(edges: seq<Edge>)
    ensures var unique := Deduplicated(edges);
      OnePerPair(unique) && SamePairs(unique, edges) && KeepsPreferred(unique, edges)
  {
    if edges != [] {
      var rest, e := edges[..|edges| - 1], edges[|edges| - 1];
      var kept := Deduplicated(rest);
      assert edges == rest + [e];
      DeduplicatedExactly(rest);
      if HasPair(kept, e.source, e.target) {
        var i := PositionOf(kept, e.source, e.target);
        MergeCopy(kept, rest, e, i);
        ReplacedPairs(kept, rest, e, i, Better(kept[i], e, e.source, e.target));
      } else {
        AddCopy(kept, rest, e);
        AddedPairs(kept, rest, e);
      }
    }
  }

  lemma OnePosition(unique: seq<Edge>, s: string, t: string, i: nat)
    requires OnePerPair(unique) && i < |unique| && Joins(unique[i], s, t)
    ensures HasPair(unique, s, t) && PositionOf(unique, s, t) == i
  {
    var j := PositionOf(unique, s, t);
    assert Joins(unique[i], unique[j].source, unique[j].target) && Joins(unique[j], unique[i].source, unique[i].target);
  }

  lemma Merged(seen: map<(string, string), nat>, edges: seq<Edge>, e: Edge)
    requires Positions(seen, Deduplicated(edges), edges) && (e.source, e.target) in seen
    ensures var unique, i := Deduplicated(edges), seen[(e.source, e.target)];
      var next := unique[i := Better(unique[i], e, e.source, e.target)];
      next == Deduplicated(edges + [e]) && Positions(seen, next, edges + [e])
  {
    var unique, i := Deduplicated(edges), seen[(e.source, e.target)];
    DeduplicatedExactly(edges);
    OnePosition(unique, e.source, e.target, i);
    PositionsReplaced(seen, unique, edges, e, Better(unique[i], e, e.source, e.target));
    assert (edges + [e])[..|edges|] == edges;
  }

  lemma Added(seen: map<(string, string), nat>, edges: seq<Edge>, e: Edge)
    requires Positions(seen, Deduplicated(edges), edges) && (e.source, e.target) !in seen
    ensures var next := Deduplicated(edges) + [e];
      next == Deduplicated(edges + [e])
      && Positions(seen[(e.source, e.target) := |Deduplicated(edges)|], next, edges + [e])
  {
    DeduplicatedExactly(edges);
    PositionsAdded(seen, Deduplicated(edges), edges, e);
    assert (edges + [e])[..|edges|] == edges;
  }

  /** The lookup context of a canvas, overlapping edges dropped. */
  function CanvasContext(nodes: seq<Node>, edges: seq<Edge>): Context { ContextOf(nodes, Deduplicated(edges)) }

  /** Keeps one edge per pair of nodes: the first, unless only a later copy has an expression. */
  method DeduplicateEdges(edges: seq<Edge>) returns (unique: seq<Edge>)
    ensures unique == Deduplicated(edges)
    ensures OnePerPair(unique) && SamePairs(unique, edges) && KeepsPreferred(unique, edges) && KeepsOrder(unique, edges)
  {
    unique := [];
    var seen: map<(string, string), nat> := map[];
    for k := 0 to |edges|
      invariant unique == Deduplicated(edges[..k]) && Positions(seen, unique, edges[..k])
    {
      var e := edges[k];
      var key := (e.source, e.target);
      assert edges[..k + 1] == edges[..k] + [e];
      if key in seen {
        Merged(seen, edges[..k], e);
        var kept := unique[seen[key]];
        if Blank(kept.expression) && !Blank(e.expression) {
          kept := e;
        }
        unique := unique[seen[key] := kept];
      } else {
        Added(seen, edges[..k], e);
        seen := seen[key := |unique|];
        unique := unique + [e];
      }
    }
    assert edges[..|edges|] == edges;
    DeduplicatedExactly(edges);
    DeduplicatedInOrder(edges);
  }
}
