/** Highlighting the edges a process instance has travelled, from its task records. */
module PathHighlight {
  import opened Prelude
  import opened Graphs
  import opened EffectiveGraph
  import opened GatewayPaths
  import opened RecordStats
  import opened CanvasScan

  // ---------------------------------------------------------------- clearing what lies behind a node

  function GatewaysAmong(m: NodeMap, targets: seq<string>): (r: seq<string>)
    ensures forall w :: w in r <==> w in targets && IsGateway(m, w)
  {
    if targets == [] then [] else
    (if IsGateway(m, targets[0]) then [targets[0]] else []) + GatewaysAmong(m, targets[1..])
  }

  /** The lit edges that clearing follows: those into gateways. */
  function Gated(m: NodeMap, lit: Graph): (g: Graph)
    ensures forall v :: Succ(g, v) == GatewaysAmong(m, Succ(lit, v))
  {
    map v | v in lit :: GatewaysAmong(m, lit[v])
  }

  ghost predicate Within(small: Graph, big: Graph) {
    forall v | v in small :: v in big && small[v] == big[v]
  }

  lemma {:induction false} GatedMonotone(m: NodeMap, small: Graph, big: Graph, a: string, b: string)
    requires Within(small, big) && Reaches(Gated(m, small), a, b)
    ensures Reaches(Gated(m, big), a, b)
  {
    var p :| Connects(Gated(m, small), p, a, b);
    forall k: nat | k + 1 < |p| ensures Hop(Gated(m, big), p, k) { assert Hop(Gated(m, small), p, k); }
    assert Connects(Gated(m, big), p, a, b);
  }

  /** Every removed key is reachable from `node`. */
  ghost predicate OnlyBehind(m: NodeMap, before: Graph, after: Graph, node: string) {
    forall k {:trigger Reaches(Gated(m, before), node, k)} | k in before && k !in after ::
      Reaches(Gated(m, before), node, k)
  }

  /** What a removed key other than `except` led to through gateways is removed as well. */
  ghost predicate ClosedBut(m: NodeMap, before: Graph, after: Graph, except: set<string>) {
    forall v, w | v in before && v !in after && v !in except && w in Succ(Gated(m, before), v) :: w !in after
  }

  /** The lit edges without those of `node` and of all gateways lit behind it. */
  ghost predicate Cleared(m: NodeMap, before: Graph, after: Graph, node: string) {
    && Within(after, before)
    && forall k {:trigger Reaches(Gated(m, before), node, k)} ::
         k in after <==> k in before && !Reaches(Gated(m, before), node, k)
  }

  lemma ClearedExactly(m: NodeMap, before: Graph, after: Graph, node: string)
    requires Within(after, before) && OnlyBehind(m, before, after, node) && ClosedBut(m, before, after, {})
    requires node !in after
    ensures Cleared(m, before, after, node)
  {
    forall k | k in before && Reaches(Gated(m, before), node, k) ensures k !in after {
      var p :| Connects(Gated(m, before), p, node, k);
      ClearedAlong(m, before, after, p);
    }
  }

  lemma {:induction false} ClearedAlong(m: NodeMap, before: Graph, after: Graph, p: seq<string>)
    requires Within(after, before) && ClosedBut(m, before, after, {})
    requires IsPath(Gated(m, before), p) && p[0] !in after
    ensures p[|p| - 1] !in after
  {
    if |p| > 1 {
      assert Hop(Gated(m, before), p, 0);
      TailPath(Gated(m, before), p);
      ClearedAlong(m, before, after, p[1..]);
    }
  }

  // ---------------------------------------------------------------- lighting up ahead

  /** Gateways that forward the light: no waiting join, no inclusion gateway, no undecided condition. */
  predicate Forwards(m: NodeMap, eff: Graph, v: string) {
    IsGateway(m, v)
    && !(m[v].waitForAll == 1 && |m[v].prevs| > 1) && m[v].waitForAll != 0
    && !(m[v].waitForAll == 3 && |Succ(eff, v)| > 1)
  }

  function Forwarding(m: NodeMap, eff: Graph): (g: Graph)
    ensures forall v :: Succ(g, v) == if Forwards(m, eff, v) then Succ(eff, v) else []
  {
    map v | v in eff && Forwards(m, eff, v) :: eff[v]
  }

  /** An edge lit from `a` on: out of a forwarding gateway reached through forwarding gateways. */
  ghost predicate LitBeyond(m: NodeMap, eff: Graph, a: string, u: string, v: string) {
    Reaches(Forwarding(m, eff), a, u) && v in Succ(Forwarding(m, eff), u)
  }

  /** Where the light ahead stops: at joins that wait for several predecessors, at inclusion gateways, at conditions with
      several ways on. Nothing is lit out of them. */
  lemma LightStops(m: NodeMap, eff: Graph, a: string, u: string, v: string)
    requires u in m && m[u].kind == GatewayNode
    requires (m[u].waitForAll == 1 && |m[u].prevs| >= 2) || m[u].waitForAll == 0 || (m[u].waitForAll == 3 && |Succ(eff, u)| >= 2)
    ensures !LitBeyond(m, eff, a, u, v)
  {
  }

  /** Nor out of anything but gateways. */
  lemma LightStopsAtTasks(m: NodeMap, eff: Graph, a: string, u: string, v: string)
    requires !(u in m && m[u].kind == GatewayNode)
    ensures !LitBeyond(m, eff, a, u, v)
  {
  }

  /** All other gateways that the light reaches pass it on along every edge. */
  lemma LightPasses(m: NodeMap, eff: Graph, a: string, n: string, u: string)
    requires n in m && m[n].kind == GatewayNode && (m[n].waitForAll == 1 || m[n].waitForAll == 3)
    requires m[n].waitForAll == 1 ==> |m[n].prevs| <= 1
    requires m[n].waitForAll == 3 ==> |Succ(eff, n)| <= 1
    requires u in Succ(eff, n)
    ensures forall x, y | LitByOne(m, eff, n, u, x, y) :: LitByOne(m, eff, a, n, x, y)
  {
    var g := Forwarding(m, eff);
    ReachesSelf(g, n);
    forall x, y | LitBeyond(m, eff, u, x, y) ensures LitBeyond(m, eff, n, x, y) { ReachesFront(g, n, u, x); }
  }

  lemma BeyondStep(m: NodeMap, eff: Graph, a: string, u: string, v: string)
    requires Forwards(m, eff, a)
    ensures LitBeyond(m, eff, a, u, v) <==> LitFrom(m, eff, a, Succ(eff, a), u, v)
  {
    var g := Forwarding(m, eff);
    if LitBeyond(m, eff, a, u, v) && u != a {
      var p :| Connects(g, p, a, u);
      assert |p| > 1 && Hop(g, p, 0);
      TailPath(g, p);
      assert Connects(g, p[1..], p[1], u);
      assert p[1] in Succ(eff, a) && LitByOne(m, eff, a, p[1], u, v);
    }
    if u == a && v in Succ(eff, a) {
      ReachesSelf(g, a);
      assert LitByOne(m, eff, a, v, u, v);
    }
    if LitFrom(m, eff, a, Succ(eff, a), u, v) {
      var n :| n in Succ(eff, a) && LitByOne(m, eff, a, n, u, v);
      if LitBeyond(m, eff, n, u, v) { ReachesFront(g, a, n, u); } else { ReachesSelf(g, a); }
    }
  }

  lemma BeyondNothing(m: NodeMap, eff: Graph, a: string, u: string, v: string)
    requires !Forwards(m, eff, a)
    ensures !LitBeyond(m, eff, a, u, v)
  {
    if Reaches(Forwarding(m, eff), a, u) {
      DeadEndReachesSelf(Forwarding(m, eff), a, u);
    }
  }

  // ---------------------------------------------------------------- the highlighter

  predicate OnPath(p: seq<string>, u: string, v: string) { OnPathBefore(p, |p|, u, v) }

  /** A trail out of proxies, from each to its first predecessor. */
  ghost predicate ProxyTrail(m: NodeMap, c: seq<string>) {
    |c| > 0 && forall i: nat {:trigger TrailStep(m, c, i)} | i + 1 < |c| :: TrailStep(m, c, i)
  }

  predicate TrailStep(m: NodeMap, c: seq<string>, i: nat)
    requires i + 1 < |c|
  {
    c[i] in m && SYS_AUTO in m[c[i]].users && |m[c[i]].prevs| > 0 && c[i + 1] == m[c[i]].prevs[0]
  }

  ghost predicate TrailTo(m: NodeMap, c: seq<string>, id: string, u: string) {
    ProxyTrail(m, c) && c[0] == id && c[|c| - 1] == u
  }

  /** What stands behind a recorded predecessor: the end of the trail that leads from it out of proxies, and itself no
      proxy, or one without predecessors. Any other id stands for itself. */
  ghost predicate LogicalPrev(m: NodeMap, id: string, u: string) {
    && (exists c :: TrailTo(m, c, id, u))
    && !(u in m && SYS_AUTO in m[u].users && |m[u].prevs| > 0)
    && (!(id in m && SYS_AUTO in m[id].users) ==> u == id)
  }

  /** There is only one such node. */
  lemma {:induction false} LogicalPrevUnique(m: NodeMap, id: string, u: string, v: string)
    requires LogicalPrev(m, id, u) && LogicalPrev(m, id, v)
    ensures u == v
  {
    var c :| TrailTo(m, c, id, u);
    var d :| TrailTo(m, d, id, v);
    SameTrail(m, c, d);
  }

  lemma {:induction false} SameTrail(m: NodeMap, c: seq<string>, d: seq<string>)
    requires ProxyTrail(m, c) && ProxyTrail(m, d) && c[0] == d[0]
    requires LogicalPrev(m, c[0], c[|c| - 1]) && LogicalPrev(m, d[0], d[|d| - 1])
    ensures c[|c| - 1] == d[|d| - 1]
    decreases |c|
  {
    if |c| == 1 {
      assert |d| > 1 ==> TrailStep(m, d, 0);
    } else {
      assert TrailStep(m, c, 0);
      assert |d| > 1 ==> TrailStep(m, d, 0);
      RestOfTrail(m, c);
      RestOfTrail(m, d);
      SameTrail(m, c[1..], d[1..]);
    }
  }

  lemma RestOfTrail(m: NodeMap, c: seq<string>)
    requires ProxyTrail(m, c) && |c| > 1 && LogicalPrev(m, c[0], c[|c| - 1])
    ensures ProxyTrail(m, c[1..]) && LogicalPrev(m, c[1], c[|c| - 1])
  {
    forall i: nat | i + 1 < |c[1..]| ensures TrailStep(m, c[1..], i) { assert TrailStep(m, c, i + 1); }
    assert TrailTo(m, c[1..], c[1], c[|c| - 1]);
    if |c| > 2 { assert TrailStep(m, c, 1); }
  }

  /** A real node behind a proxy feeds it through first predecessors. */
  lemma {:induction false} LogicalPrevFeeds(m: NodeMap, id: string, u: string, c: seq<string>)
    requires TrailTo(m, c, id, u) && ProxyIn(m, id) && RealIn(m, u)
    ensures Feeds(m, u, id)
    decreases |c|
  {
    assert |c| > 1 && TrailStep(m, c, 0) && Precedes(m, c[1], id);
    if c[1] == u {
      FeedsDirectly(m, u, id);
    } else {
      assert |c| > 2 && TrailStep(m, c, 1);
      forall i: nat | i + 1 < |c[1..]| ensures TrailStep(m, c[1..], i) { assert TrailStep(m, c, i + 1); }
      LogicalPrevFeeds(m, c[1], u, c[1..]);
      FeedsThrough(m, u, c[1], id);
    }
  }

  /** A proxy with one predecessor that is none itself stands for it. */
  lemma StandsForPrev(m: NodeMap, id: string, s: string, prev: string)
    requires ProxyIn(m, id) && m[id].prevs == [s] && RealIn(m, s)
    ensures LogicalPrev(m, id, prev) <==> prev == s
  {
    assert TrailStep(m, [id, s], 0);
    assert TrailTo(m, [id, s], id, s);
    assert LogicalPrev(m, id, s);
    if LogicalPrev(m, id, prev) { LogicalPrevUnique(m, id, prev, s); }
  }

  lemma {:induction false} ResolvedLogical(m: NodeMap, id: string, rank: string -> nat)
    requires ProxiesRanked(m, rank)
    ensures LogicalPrev(m, id, ResolveLogicalPrev(m, id, rank))
    decreases if ProxyIn(m, id) then rank(id) + 1 else 0
  {
    var u := ResolveLogicalPrev(m, id, rank);
    if ProxyIn(m, id) && m[id].prevs != [] {
      var next := m[id].prevs[0];
      assert Precedes(m, next, id);
      ResolvedLogical(m, next, rank);
      var c :| TrailTo(m, c, next, u);
      var d := [id] + c;
      forall i: nat | i + 1 < |d| ensures TrailStep(m, d, i) {
        if i > 0 { assert TrailStep(m, c, i - 1); }
      }
      assert TrailTo(m, d, id, u);
    } else {
      assert TrailTo(m, [id], id, u);
    }
  }

  /** The first real node behind a recorded predecessor, following the proxies' first predecessor. */
  function ResolveLogicalPrev(m: NodeMap, id: string, ghost rank: string -> nat): string
    requires ProxiesRanked(m, rank)
    decreases if ProxyIn(m, id) then rank(id) + 1 else 0
  {
    if ProxyIn(m, id) && m[id].prevs != [] then
      assert Precedes(m, m[id].prevs[0], id);
      ResolveLogicalPrev(m, m[id].prevs[0], rank)
    else id
  }

  class Highlighter {
    const m: NodeMap
    const eff: Graph
    ghost const proxyRank: string -> nat
    var lit: Graph

    ghost predicate Valid() { ProxiesRanked(m, proxyRank) }

    constructor (m: NodeMap, eff: Graph, ghost proxyRank: string -> nat)
      requires ProxiesRanked(m, proxyRank)
      ensures Valid() && this.m == m && this.eff == eff && this.proxyRank == proxyRank && lit == map[]
    {
      this.m, this.eff, this.proxyRank, lit := m, eff, proxyRank, map[];
    }

    /** Removes the lit edges of `node` and, through lit gateways, of everything behind it. */
    method RecursiveReset(node: string)
      modifies `lit
      ensures Cleared(m, old(lit), lit, node)
      decreases |lit|, 0
    {
      ghost var before := lit;
      if node in lit {
        var targets := lit[node];
        lit := lit - {node};
        ResetStarts(m, before, lit, node);
        ResetTargets(before, node, targets);
      }
      ClearedExactly(m, before, lit, node);
    }

    method ResetTargets(ghost before: Graph, node: string, targets: seq<string>)
      requires Resetting(m, before, lit, node) && targets == before[node]
      modifies `lit
      ensures Resetting(m, before, lit, node) && ClosedBut(m, before, lit, {})
      decreases |lit|, 2
    {
      for k := 0 to |targets|
        invariant Resetting(m, before, lit, node) && lit.Keys <= old(lit).Keys
        invariant GatewaysGone(m, targets[..k], lit)
      {
        SubsetSize(lit.Keys, old(lit).Keys);
        ghost var mid := lit;
        ResetTarget(before, node, targets[k]);
        GatewayGone(m, targets[..k], targets[k], mid, lit);
        assert targets[..k + 1] == targets[..k] + [targets[k]];
      }
      assert targets[..|targets|] == targets;
      ResetEnds(m, before, lit, node);
    }

    method ResetTarget(ghost before: Graph, node: string, target: string)
      requires Resetting(m, before, lit, node) && target in before[node]
      modifies `lit
      ensures Resetting(m, before, lit, node) && lit.Keys <= old(lit).Keys
      ensures IsGateway(m, target) ==> target !in lit
      decreases |lit|, 1
    {
      if IsGateway(m, target) {
        ghost var mid := lit;
        RecursiveReset(target);
        ResetStep(m, before, mid, lit, node, target);
      }
    }

    /** Lights an edge and, through forwarding gateways, everything ahead of it. */
    method LightUpForward(source: string, target: string)
      requires Ends(Forwarding(m, eff), target)
      modifies `lit
      ensures forall u, v :: v in Succ(lit, u) <==>
        v in Succ(old(lit), u) || (u == source && v == target) || LitBeyond(m, eff, target, u, v)
      decreases |Ahead(Forwarding(m, eff), target)|, 1
    {
      lit := UniqueAppend(lit, source, target);
      if Forwards(m, eff, target) {
        AllEnd(Forwarding(m, eff), target);
        LightAll(target, Succ(eff, target), |Ahead(Forwarding(m, eff), target)|);
        forall u, v ensures LitBeyond(m, eff, target, u, v) <==> LitFrom(m, eff, target, Succ(eff, target), u, v) {
          BeyondStep(m, eff, target, u, v);
        }
      } else {
        forall u, v ensures !LitBeyond(m, eff, target, u, v) { BeyondNothing(m, eff, target, u, v); }
      }
    }

    method LightAll(source: string, targets: seq<string>, ghost bound: nat)
      requires EndBelow(Forwarding(m, eff), targets, bound)
      modifies `lit
      ensures forall u, v :: v in Succ(lit, u) <==> v in Succ(old(lit), u) || LitFrom(m, eff, source, targets, u, v)
      decreases bound, 0
    {
      for k := 0 to |targets|
        invariant forall u, v :: v in Succ(lit, u) <==>
          v in Succ(old(lit), u) || LitFrom(m, eff, source, targets[..k], u, v)
      {
        ghost var mid := lit;
        LightUpForward(source, targets[k]);
        assert targets[..k + 1] == targets[..k] + [targets[k]];
        forall u, v ensures LitFrom(m, eff, source, targets[..k + 1], u, v) <==>
          LitFrom(m, eff, source, targets[..k], u, v) || LitByOne(m, eff, source, targets[k], u, v)
        {
          LitAppended(m, eff, source, targets[..k], targets[k], u, v);
        }
      }
      assert targets[..|targets|] == targets;
    }

    /** Lights the edges of a path. */
    method LightPath(path: seq<string>)
      modifies `lit
      ensures forall u, v :: v in Succ(lit, u) <==> v in Succ(old(lit), u) || OnPath(path, u, v)
    {
      var k := 0;
      while k + 1 < |path|
        invariant k <= |path| && (|path| > 0 ==> k < |path|)
        invariant forall u, v :: v in Succ(lit, u) <==> v in Succ(old(lit), u) || OnPathBefore(path, k, u, v)
      {
        lit := UniqueAppend(lit, path[k], path[k + 1]);
        forall u, v ensures OnPathBefore(path, k + 1, u, v) <==>
          OnPathBefore(path, k, u, v) || (u == path[k] && v == path[k + 1])
        {
          PathStep(path, k, u, v);
        }
        k := k + 1;
      }
    }

    /** One task record: clear what its node lit before, light the way to it, light the way ahead. */
    method Process(analyzer: StatusAnalyzer, t: Record)
      returns (ghost cleared: Graph, ghost back: Option<seq<string>>)
      requires Valid() && analyzer.Valid() && analyzer.nodes == m && t in analyzer.records
      requires Lights(m, analyzer.records, t) ==> AheadEnds(m, eff, t.node)
      modifies `lit
      ensures RecordStep(m, eff, analyzer.records, t, old(lit), cleared, lit, back)
    {
      RecursiveReset(t.node);
      cleared, back := lit, None;
      if t.status != 2 && t.status != 3 && t.prevNode != "" {
        var tainted := analyzer.IsBatchTainted(t.node, t.batch);
        if tainted {
          return;
        }
        var prev := ResolveLogicalPrev(m, t.prevNode, proxyRank);
        ResolvedLogical(m, t.prevNode, proxyRank);
        var path := FindPathThroughGateways(m, eff, prev, t.node);
        back := path;
        if path.Some? {
          LightPath(path.value);
        }
      }
      var ahead := LightsAheadNow(analyzer, t);
      if ahead {
        LightAll(t.node, Succ(eff, t.node), HighestOf(Forwarding(m, eff), Succ(eff, t.node)));
      }
    }

    method LightsAheadNow(analyzer: StatusAnalyzer, t: Record) returns (r: bool)
      requires analyzer.Valid() && analyzer.nodes == m && t in analyzer.records
      ensures r <==> LightsAhead(m, analyzer.records, t)
    {
      var passed := analyzer.IsBatchEffectivelyPassed(t);
      if passed {
        var pending := analyzer.HasNewerBatchPending(t.node, t.batch);
        return !pending;
      }
      return t.status == 5;
    }
  }

  /** Nothing lit from these nodes on goes round, and fewer than `bound` vertices lie ahead of each. */
  ghost predicate EndBelow(g: Graph, targets: seq<string>, bound: nat) {
    forall n | n in targets :: Ends(g, n) && |Ahead(g, n)| < bound
  }

  lemma AllEnd(g: Graph, v: string)
    requires Ends(g, v)
    ensures EndBelow(g, Succ(g, v), |Ahead(g, v)|)
  {
    forall w | w in Succ(g, v) ensures Ends(g, w) && |Ahead(g, w)| < |Ahead(g, v)| { AheadShrinks(g, v, w); }
  }

  ghost function HighestOf(g: Graph, targets: seq<string>): (bound: nat)
    ensures forall n | n in targets :: |Ahead(g, n)| < bound
  {
    if targets == [] then 0 else
    var rest := HighestOf(g, targets[1..]);
    var h := |Ahead(g, targets[0])|;
    if h < rest then rest else h + 1
  }

  predicate OnPathBefore(p: seq<string>, n: nat, u: string, v: string) {
    exists k :: 0 <= k < n && k + 1 < |p| && Step(p, k, u, v)
  }

  predicate Step(p: seq<string>, k: nat, u: string, v: string)
    requires k + 1 < |p|
  {
    p[k] == u && p[k + 1] == v
  }

  lemma PathStep(p: seq<string>, n: nat, u: string, v: string)
    requires n + 1 < |p|
    ensures OnPathBefore(p, n + 1, u, v) <==> OnPathBefore(p, n, u, v) || Step(p, n, u, v)
  {
  }

  // ---------------------------------------------------------------- what one record does

  /** Neither rejected nor passed by the system, and with a predecessor. */
  predicate Tracks(t: Record) { t.status != 2 && t.status != 3 && t.prevNode != "" }

  predicate LightsAhead(m: NodeMap, records: seq<Record>, t: Record) {
    if EffectivelyPassed(m, records, t) then !OtherBatchPending(records, t.node, t.batch) else t.status == 5
  }

  /** The record reaches the point where the way ahead is lit, and it is lit. */
  predicate Lights(m: NodeMap, records: seq<Record>, t: Record) {
    !(Tracks(t) && SystemPassed(records, t.node, t.batch)) && LightsAhead(m, records, t)
  }

  /** No way ahead of the node leads into a ring of forwarding gateways. */
  ghost predicate AheadEnds(m: NodeMap, eff: Graph, node: string) {
    forall w | w in Succ(eff, node) :: Ends(Forwarding(m, eff), w)
  }

  /** Lighting ahead ends for every record that does it. */
  ghost predicate LightingEnds(m: NodeMap, eff: Graph, records: seq<Record>) {
    forall t | t in records && Lights(m, records, t) :: AheadEnds(m, eff, t.node)
  }

  ghost predicate LitByRecord(m: NodeMap, eff: Graph, records: seq<Record>, t: Record, back: Option<seq<string>>,
                              u: string, v: string) {
    !(Tracks(t) && SystemPassed(records, t.node, t.batch))
    && ((Tracks(t) && back.Some? && OnPath(back.value, u, v))
        || (LightsAhead(m, records, t) && LitFrom(m, eff, t.node, Succ(eff, t.node), u, v)))
  }

  /** The way to the record's node from what stands behind its predecessor, if there is one within the bound. */
  ghost predicate Approached(m: NodeMap, eff: Graph, t: Record, back: Option<seq<string>>) {
    exists prev :: LogicalPrev(m, t.prevNode, prev) && Answers(m, eff, prev, t.node, back)
  }

  /** The lit edges before and after one record. */
  ghost predicate RecordStep(m: NodeMap, eff: Graph, records: seq<Record>, t: Record,
                             before: Graph, cleared: Graph, after: Graph, back: Option<seq<string>>)
  {
    && Cleared(m, before, cleared, t.node)
    && (Tracks(t) && !SystemPassed(records, t.node, t.batch) ==>
          Approached(m, eff, t, back))
    && forall u, v :: v in Succ(after, u) <==>
         v in Succ(cleared, u) || LitByRecord(m, eff, records, t, back, u, v)
  }

  /** Lit by the edge from `a` to `n` and everything ahead of it. */
  ghost predicate LitByOne(m: NodeMap, eff: Graph, a: string, n: string, u: string, v: string) {
    (u == a && v == n) || LitBeyond(m, eff, n, u, v)
  }

  ghost predicate LitFrom(m: NodeMap, eff: Graph, a: string, targets: seq<string>, u: string, v: string) {
    exists n :: n in targets && LitByOne(m, eff, a, n, u, v)
  }

  lemma LitAppended(m: NodeMap, eff: Graph, a: string, targets: seq<string>, n: string, u: string, v: string)
    ensures LitFrom(m, eff, a, targets + [n], u, v) <==>
      LitFrom(m, eff, a, targets, u, v) || LitByOne(m, eff, a, n, u, v)
  {
    assert forall x :: x in targets + [n] <==> x in targets || x == n;
  }

  /** A reset under way: `node` is gone, and all but its own successors have been followed. */
  ghost predicate Resetting(m: NodeMap, before: Graph, lit: Graph, node: string) {
    && node in before && Within(lit, before) && node !in lit
    && OnlyBehind(m, before, lit, node) && ClosedBut(m, before, lit, {node})
  }

  lemma ResetStarts(m: NodeMap, before: Graph, lit: Graph, node: string)
    requires node in before && lit == before - {node}
    ensures Resetting(m, before, lit, node) && |lit| < |before|
  {
    ReachesSelf(Gated(m, before), node);
    assert before.Keys == lit.Keys + {node};
  }

  ghost predicate GatewaysGone(m: NodeMap, targets: seq<string>, lit: Graph) {
    forall w | w in targets && IsGateway(m, w) :: w !in lit
  }

  lemma GatewayGone(m: NodeMap, targets: seq<string>, t: string, mid: Graph, lit: Graph)
    requires GatewaysGone(m, targets, mid) && lit.Keys <= mid.Keys && (IsGateway(m, t) ==> t !in lit)
    ensures GatewaysGone(m, targets + [t], lit)
  {
    forall w | w in targets + [t] && IsGateway(m, w) ensures w !in lit {
      assert w in targets || w == t;
    }
  }

  lemma ResetEnds(m: NodeMap, before: Graph, lit: Graph, node: string)
    requires Resetting(m, before, lit, node)
    requires GatewaysGone(m, before[node], lit)
    ensures ClosedBut(m, before, lit, {})
  {
  }

  lemma ResetStep(m: NodeMap, before: Graph, mid: Graph, after: Graph, node: string, t: string)
    requires Resetting(m, before, mid, node) && t in before[node] && IsGateway(m, t) && Cleared(m, mid, after, t)
    ensures Resetting(m, before, after, node) && after.Keys <= mid.Keys && t !in after
  {
    ReachesSelf(Gated(m, mid), t);
    forall k | k in before && k !in after ensures Reaches(Gated(m, before), node, k) {
      if k in mid {
        GatedMonotone(m, mid, before, t, k);
        assert t in Succ(Gated(m, before), node);
        ReachesFront(Gated(m, before), node, t, k);
      }
    }
    forall v, w | v in before && v !in after && v != node && w in Succ(Gated(m, before), v) ensures w !in after {
      if v in mid {
        assert w in Succ(Gated(m, mid), v);
        ReachesOne(Gated(m, mid), t, v, w);
      }
    }
  }

  // ---------------------------------------------------------------- the whole run

  ghost predicate Follows(m: NodeMap, eff: Graph, records: seq<Record>, t: Record,
                          before: Graph, after: Graph)
  {
    exists cleared, back :: RecordStep(m, eff, records, t, before, cleared, after, back)
  }

  /** The lit edges after each record, starting from none. */
  ghost predicate Trace(m: NodeMap, eff: Graph, records: seq<Record>, trace: seq<Graph>)
  {
    && 0 < |trace| <= |records| + 1 && trace[0] == map[]
    && forall k: nat {:trigger Advances(m, eff, records, trace, k)} | k + 1 < |trace| ::
         Advances(m, eff, records, trace, k)
  }

  ghost predicate Advances(m: NodeMap, eff: Graph, records: seq<Record>, trace: seq<Graph>, k: nat)
    requires k + 1 < |trace| && k < |records|
  {
    Follows(m, eff, records, records[k], trace[k], trace[k + 1])
  }

  /** Only what is lit from the root on. */
  ghost predicate Pruned(lit: Graph, root: string, final: Graph) {
    && Within(final, lit)
    && forall k :: k in final <==> |Succ(lit, k)| > 0 && Reaches(lit, root, k)
  }

  ghost predicate Kept(lit: Graph, final: Graph, done: set<string>) {
    Within(final, lit) && forall k :: k in final <==> k in done && |Succ(lit, k)| > 0
  }

  lemma KeepOne(lit: Graph, final: Graph, done: set<string>, curr: string)
    requires Kept(lit, final, done)
    ensures Kept(lit, if |Succ(lit, curr)| > 0 then final[curr := Succ(lit, curr)] else final, done + {curr})
  {
  }

  lemma KeptAll(lit: Graph, root: string, final: Graph, done: set<string>)
    requires Kept(lit, final, done) && forall v :: v in done <==> FromSeeds(lit, [root], v)
    ensures Pruned(lit, root, final)
  {
    forall v ensures FromSeeds(lit, [root], v) <==> Reaches(lit, root, v) {
      if Reaches(lit, root, v) { assert root in [root]; }
    }
  }

  /** Keeps the lit edges that hang together from the root. */
  method PruneFromRoot(lit: Graph, root: string) returns (final: Graph)
    ensures Pruned(lit, root, final)
  {
    final := map[];
    ghost var universe, done: set<string> := Vertices(lit) + {root}, {};
    var queue := [root];
    var visited := {root};
    StartSearch(lit, [root]);
    assert Elements([root]) == {root};
    while queue != []
      invariant Settled(lit, [root], visited, queue) && visited <= universe
      invariant done == visited - Elements(queue) && Kept(lit, final, done)
      decreases universe - visited, |queue|
    {
      var curr := queue[0];
      TakeFirst(lit, [root], visited, queue);
      TakenIsDone(visited, queue);
      var targets := Succ(lit, curr);
      KeepOne(lit, final, done, curr);
      done := done + {curr};
      if |targets| > 0 {
        final := final[curr := targets];
      }
      VerticesHold(lit, curr);
      visited, queue := Expand(lit, [root], universe, curr, targets, visited, queue[1..]);
    }
    SearchComplete(lit, [root], visited);
    assert done == visited;
    KeptAll(lit, root, final, done);
  }

  /** The travelled edges of an instance: the records in order, then pruned from the root if there is one. */
  method TraversedEdges(m: NodeMap, eff: Graph, records: seq<Record>, root: string,
                        ghost proxyRank: string -> nat)
    returns (final: Graph, ghost trace: seq<Graph>)
    requires LightingEnds(m, eff, records) && ProxiesRanked(m, proxyRank)
    ensures Trace(m, eff, records, trace) && |trace| == |records| + 1
    ensures if root == "" then final == trace[|records|] else Pruned(trace[|records|], root, final)
    ensures SubGraph(final, eff) && (root != "" ==> HangsTogether(final, root))
  {
    var analyzer := new StatusAnalyzer(m, records);
    var h := new Highlighter(m, eff, proxyRank);
    trace := [map[]];
    for k := 0 to |records|
      invariant h.Valid() && h.m == m && h.eff == eff && h.proxyRank == proxyRank
      invariant analyzer.Valid() && analyzer.records == records && analyzer.nodes == m
      invariant |trace| == k + 1 && Trace(m, eff, records, trace) && trace[k] == h.lit
    {
      ghost var cleared, back := h.Process(analyzer, records[k]);
      assert Follows(m, eff, records, records[k], trace[k], h.lit);
      TraceGrows(m, eff, records, trace, h.lit);
      trace := trace + [h.lit];
    }
    if root != "" {
      final := PruneFromRoot(h.lit, root);
      HighlightsHangTogether(m, eff, records, trace, root, final);
    } else {
      TraceInside(m, eff, records, trace, |records|);
      final := h.lit;
    }
  }

  lemma TraceGrows(m: NodeMap, eff: Graph, records: seq<Record>, trace: seq<Graph>, g: Graph)
    requires Trace(m, eff, records, trace) && |trace| <= |records|
    requires Follows(m, eff, records, records[|trace| - 1], trace[|trace| - 1], g)
    ensures Trace(m, eff, records, trace + [g])
  {
    var more := trace + [g];
    forall k: nat | k + 1 < |more| ensures Advances(m, eff, records, more, k) {
      if k + 1 < |trace| { assert Advances(m, eff, records, trace, k); }
    }
  }

  // ---------------------------------------------------------------- what is highlighted

  ghost predicate SubGraph(lit: Graph, eff: Graph) {
    forall u, v | v in Succ(lit, u) :: v in Succ(eff, u)
  }

  lemma PathEdges(eff: Graph, p: seq<string>, u: string, v: string)
    requires IsPath(eff, p) && OnPath(p, u, v)
    ensures v in Succ(eff, u)
  {
    var k :| 0 <= k < |p| && k + 1 < |p| && Step(p, k, u, v);
    assert Hop(eff, p, k);
  }

  lemma StepStaysInside(m: NodeMap, eff: Graph, records: seq<Record>, t: Record,
                        before: Graph, after: Graph)
    requires SubGraph(before, eff)
    requires Follows(m, eff, records, t, before, after)
    ensures SubGraph(after, eff)
  {
    var cleared, back :| RecordStep(m, eff, records, t, before, cleared, after, back);
    forall u, v | v in Succ(after, u) ensures v in Succ(eff, u) {
      if v in Succ(cleared, u) {
        assert v in Succ(before, u);
      } else {
        assert LitByRecord(m, eff, records, t, back, u, v);
        RecordLightsEdges(m, eff, records, t, back, u, v);
      }
    }
  }

  lemma RecordLightsEdges(m: NodeMap, eff: Graph, records: seq<Record>, t: Record, back: Option<seq<string>>,
                          u: string, v: string)
    requires LitByRecord(m, eff, records, t, back, u, v)
    requires Tracks(t) && !SystemPassed(records, t.node, t.batch) ==> Approached(m, eff, t, back)
    ensures v in Succ(eff, u)
  {
    if Tracks(t) && back.Some? && OnPath(back.value, u, v) {
      PathEdges(eff, back.value, u, v);
    }
  }

  /** Only edges of the effective graph are ever lit. */
  lemma {:induction false} TraceInside(m: NodeMap, eff: Graph, records: seq<Record>,
                                       trace: seq<Graph>, k: nat)
    requires Trace(m, eff, records, trace) && k < |trace|
    ensures SubGraph(trace[k], eff)
  {
    if k > 0 {
      TraceInside(m, eff, records, trace, k - 1);
      assert Advances(m, eff, records, trace, k - 1);
      StepStaysInside(m, eff, records, records[k - 1], trace[k - 1], trace[k]);
    }
  }

  lemma {:induction false} KeptPath(lit: Graph, root: string, final: Graph, p: seq<string>)
    requires Pruned(lit, root, final) && IsPath(lit, p) && p[0] == root
    ensures IsPath(final, p)
  {
    forall k: nat | k + 1 < |p| ensures Hop(final, p, k) {
      assert Hop(lit, p, k);
      SubPath(lit, p, 0, k + 1);
      assert Connects(lit, p[0..k + 1], root, p[k]);
    }
  }

  /** The source of every edge is reached from the root along edges of the graph. */
  ghost predicate HangsTogether(g: Graph, root: string) {
    forall u {:trigger Reaches(g, root, u)} | Succ(g, u) != [] :: Reaches(g, root, u)
  }

  lemma SourceReached(lit: Graph, root: string, final: Graph, u: string)
    requires Pruned(lit, root, final) && Succ(final, u) != []
    ensures Reaches(final, root, u)
  {
    var p :| Connects(lit, p, root, u);
    KeptPath(lit, root, final, p);
    assert Connects(final, p, root, u);
  }

  /** Everything highlighted is an effective edge, and its source is reached from the root along
      highlighted edges. */
  lemma HighlightsHangTogether(m: NodeMap, eff: Graph, records: seq<Record>,
                               trace: seq<Graph>, root: string, final: Graph)
    requires Trace(m, eff, records, trace) && |trace| == |records| + 1
    requires Pruned(trace[|records|], root, final)
    ensures SubGraph(final, eff) && HangsTogether(final, root)
  {
    TraceInside(m, eff, records, trace, |records|);
    var lit := trace[|records|];
    forall u, v | v in Succ(final, u) ensures v in Succ(eff, u) { assert v in Succ(lit, u); }
    forall u | Succ(final, u) != [] ensures Reaches(final, root, u) { SourceReached(lit, root, final, u); }
  }

  lemma EndsOnce(p: seq<string>, u: string, v: string)
    requires |p| > 0 && Distinct(p) && p[|p| - 1] == u
    ensures !OnPath(p, u, v)
  {
  }

  lemma ApproachEnds(m: NodeMap, eff: Graph, t: Record, back: Option<seq<string>>, v: string)
    requires Approached(m, eff, t, back) && back.Some?
    ensures !OnPath(back.value, t.node, v)
  {
    var prev :| LogicalPrev(m, t.prevNode, prev) && Answers(m, eff, prev, t.node, back);
    EndsOnce(back.value, t.node, v);
  }

  lemma EmptyOrHasMember(s: seq<string>)
    ensures s == [] || exists v :: v in s
  {
    assert s == [] || s[0] in s;
  }

  /** A record that does not light the way ahead leaves nothing lit out of its node. */
  lemma UndecidedNodeDark(m: NodeMap, eff: Graph, records: seq<Record>, t: Record,
                          before: Graph, after: Graph)
    requires Follows(m, eff, records, t, before, after)
    requires !LightsAhead(m, records, t)
    ensures Succ(after, t.node) == []
  {
    var cleared, back :| RecordStep(m, eff, records, t, before, cleared, after, back);
    ReachesSelf(Gated(m, before), t.node);
    forall v ensures v !in Succ(after, t.node) {
      if Tracks(t) && !SystemPassed(records, t.node, t.batch) && back.Some? {
        ApproachEnds(m, eff, t, back, v);
      }
      assert !LitByRecord(m, eff, records, t, back, t.node, v);
    }
    EmptyOrHasMember(Succ(after, t.node));
  }

  ghost predicate OnlyWayTo(cleared: Graph, after: Graph, back: Option<seq<string>>) {
    forall u, v :: v in Succ(after, u) <==> v in Succ(cleared, u) || (back.Some? && OnPath(back.value, u, v))
  }

  ghost predicate LightsAllAhead(m: NodeMap, eff: Graph, node: string, after: Graph) {
    forall u, v | LitFrom(m, eff, node, Succ(eff, node), u, v) :: v in Succ(after, u)
  }

  /** Passed, with countersigning by all of its batch, and no other batch of the node is open. */
  predicate Passed(m: NodeMap, records: seq<Record>, t: Record) {
    && t.status == 1 && t.finished == 1
    && (t.cosigned || (t.node in m && m[t.node].cosigned) ==> AllPassed(records, t.node, t.batch))
    && !OtherBatchPending(records, t.node, t.batch)
  }

  /** What a record lights, by its status: nothing if it was rejected or passed by the system, or, with a predecessor, if
      the system passed one of its batch; else the way to it, and the way ahead if it passed or has status 5 and only then. */
  lemma LightsByStatus(m: NodeMap, eff: Graph, records: seq<Record>, t: Record, before: Graph, cleared: Graph, after: Graph,
                       back: Option<seq<string>>)
    requires RecordStep(m, eff, records, t, before, cleared, after, back)
    ensures t.status == 2 || t.status == 3 ==> OnlyWayTo(cleared, after, None)
    ensures SystemPassed(records, t.node, t.batch) && t.prevNode != "" ==> OnlyWayTo(cleared, after, None)
    ensures !SystemPassed(records, t.node, t.batch) && (Passed(m, records, t) || t.status == 5) ==>
      LightsAllAhead(m, eff, t.node, after)
    ensures t.status != 2 && t.status != 3 && t.prevNode != "" && !Passed(m, records, t) && t.status != 5 ==>
      OnlyWayTo(cleared, after, if SystemPassed(records, t.node, t.batch) then None else back)
    ensures back.Some? && t.prevNode != "" && t.status != 2 && t.status != 3 && !SystemPassed(records, t.node, t.batch) ==>
      forall u, v | OnPath(back.value, u, v) :: v in Succ(after, u)
  {
    forall u, v | LitByRecord(m, eff, records, t, back, u, v) ensures v in Succ(after, u) {}
  }

  // ---------------------------------------------------------------- when lighting ahead ends

  /** Lighting up to `v`, and ahead of it through forwarding gateways, comes back within `n` nested calls. */
  ghost predicate LightsWithin(m: NodeMap, eff: Graph, v: string, n: nat)
    decreases n
  {
    n > 0 && (Forwards(m, eff, v) ==> forall w | w in Succ(eff, v) :: LightsWithin(m, eff, w, n - 1))
  }

  lemma {:induction false} LightsAlongWalks(m: NodeMap, eff: Graph, v: string, n: nat)
    ensures LightsWithin(m, eff, v, n) <==> WalksWithin(Forwarding(m, eff), v, n)
    decreases n
  {
    WithinBySuccessors(Forwarding(m, eff), v, n);
    if n > 0 && Forwards(m, eff, v) {
      forall w | w in Succ(eff, v) ensures LightsWithin(m, eff, w, n - 1) <==> WalksWithin(Forwarding(m, eff), w, n - 1) {
        LightsAlongWalks(m, eff, w, n - 1);
      }
    }
  }

  /** Lighting ahead of a node ends if and only if it leads to no ring of forwarding gateways. */
  lemma LightingEndsExactly(m: NodeMap, eff: Graph, v: string)
    ensures (exists n: nat {:trigger LightsWithin(m, eff, v, n)} :: LightsWithin(m, eff, v, n)) <==> Ends(Forwarding(m, eff), v)
  {
    var g := Forwarding(m, eff);
    EndsExactly(g, v);
    forall n: nat ensures LightsWithin(m, eff, v, n) <==> WalksWithin(g, v, n) { LightsAlongWalks(m, eff, v, n); }
    if Ends(g, v) {
      var n: nat :| WalksWithin(g, v, n);
      assert LightsWithin(m, eff, v, n);
    }
  }

  lemma ForwardingInside(m: NodeMap, eff: Graph, p: seq<string>)
    requires IsPath(Forwarding(m, eff), p)
    ensures IsPath(eff, p)
  {
    forall k: nat | k + 1 < |p| ensures Hop(eff, p, k) { assert Hop(Forwarding(m, eff), p, k); }
  }

  /** On an acyclic drawn graph lighting ahead always ends. */
  lemma AcyclicLightingEnds(m: NodeMap, eff: Graph, records: seq<Record>)
    requires Acyclic(eff)
    ensures LightingEnds(m, eff, records)
  {
    forall p ensures !IsCycle(Forwarding(m, eff), p) {
      if IsCycle(Forwarding(m, eff), p) {
        ForwardingInside(m, eff, p);
        assert IsCycle(eff, p);
      }
    }
  }
}
