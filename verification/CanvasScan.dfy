/** The validator's breadth-first passes: reachability both ways and the bounded branch scan. */
module CanvasScan {
  import opened Prelude
  import opened Graphs
  import opened CanvasModel
  import opened CanvasCycles

  // ---------------------------------------------------------------- breadth-first search

  /** Everything reached is reachable, and only queued vertices (and the first `curr`'s edges beyond
      `k`) may have successors that are not reached yet. */
  ghost predicate Frontier(g: Graph, seeds: seq<string>, reached: set<string>, queue: seq<string>, curr: string, k: nat) {
    && Distinct(queue)
    && (forall v | v in queue :: v in reached && v != curr)
    && (forall v | v in seeds :: v in reached)
    && (forall v {:trigger FromSeeds(g, seeds, v)} | v in reached :: FromSeeds(g, seeds, v))
    && (forall v, w | v in reached && v !in queue && v != curr && w in Succ(g, v) :: w in reached)
    && k <= |Succ(g, curr)| && (forall j | 0 <= j < k :: Succ(g, curr)[j] in reached)
  }

  ghost predicate Settled(g: Graph, seeds: seq<string>, reached: set<string>, queue: seq<string>) {
    && Distinct(queue)
    && (forall v | v in queue :: v in reached)
    && (forall v | v in seeds :: v in reached)
    && (forall v {:trigger FromSeeds(g, seeds, v)} | v in reached :: FromSeeds(g, seeds, v))
    && (forall v, w | v in reached && v !in queue && w in Succ(g, v) :: w in reached)
  }

  lemma StartSearch(g: Graph, seeds: seq<string>)
    requires Distinct(seeds)
    ensures Settled(g, seeds, Elements(seeds), seeds)
  {
    forall v | v in seeds ensures FromSeeds(g, seeds, v) { SeedReached(g, seeds, v); }
  }

  lemma TakeFirst(g: Graph, seeds: seq<string>, reached: set<string>, queue: seq<string>)
    requires Settled(g, seeds, reached, queue) && queue != []
    ensures Frontier(g, seeds, reached, queue[1..], queue[0], 0)
  {
    assert queue == [queue[0]] + queue[1..];
    forall i, j | 0 <= i < j < |queue[1..]| ensures queue[1..][i] != queue[1..][j] {
      assert queue[i + 1] != queue[j + 1];
    }
    forall v | v in queue[1..] ensures v in reached && v != queue[0] {
      var i :| 0 <= i < |queue[1..]| && queue[1..][i] == v;
      assert queue[0] != queue[i + 1];
    }
  }

  lemma TakenIsDone(reached: set<string>, queue: seq<string>)
    requires Distinct(queue) && |queue| > 0 && queue[0] in reached
    ensures reached - Elements(queue) + {queue[0]} == reached - Elements(queue[1..])
  {
    assert queue == [queue[0]] + queue[1..];
    assert queue[0] !in queue[1..];
  }

  lemma MarkSeen(g: Graph, seeds: seq<string>, reached: set<string>, queue: seq<string>, curr: string, k: nat)
    requires Frontier(g, seeds, reached, queue, curr, k) && k < |Succ(g, curr)| && Succ(g, curr)[k] in reached
    ensures Frontier(g, seeds, reached, queue, curr, k + 1)
  {
  }

  lemma MarkNew(g: Graph, seeds: seq<string>, reached: set<string>, queue: seq<string>, curr: string, k: nat, w: string)
    requires Frontier(g, seeds, reached, queue, curr, k) && curr in reached && k < |Succ(g, curr)|
    requires w == Succ(g, curr)[k] && w !in reached && FromSeeds(g, seeds, w)
    ensures Frontier(g, seeds, reached + {w}, queue + [w], curr, k + 1)
  {
    forall v, x | v in reached + {w} && v !in queue + [w] && v != curr && x in Succ(g, v) ensures x in reached + {w} {
      assert (queue + [w])[|queue|] == w;
      assert v in reached && v !in queue;
    }
  }

  lemma MarkNext(g: Graph, seeds: seq<string>, reached: set<string>, queue: seq<string>, curr: string, k: nat)
    requires Frontier(g, seeds, reached, queue, curr, k) && curr in reached && k < |Succ(g, curr)|
    ensures var w := Succ(g, curr)[k];
      if w in reached then Frontier(g, seeds, reached, queue, curr, k + 1)
      else Frontier(g, seeds, reached + {w}, queue + [w], curr, k + 1)
  {
    var w := Succ(g, curr)[k];
    if w in reached {
      MarkSeen(g, seeds, reached, queue, curr, k);
    } else {
      NextReached(g, seeds, curr, w);
      MarkNew(g, seeds, reached, queue, curr, k, w);
    }
  }

  lemma FinishNode(g: Graph, seeds: seq<string>, reached: set<string>, queue: seq<string>, curr: string)
    requires Frontier(g, seeds, reached, queue, curr, |Succ(g, curr)|)
    ensures Settled(g, seeds, reached, queue)
  {
    forall v, w | v in reached && v !in queue && w in Succ(g, v) ensures w in reached {
      if v == curr {
        var j :| 0 <= j < |Succ(g, curr)| && Succ(g, curr)[j] == w;
      }
    }
  }

  /** When the queue is empty, exactly the vertices reachable from the seeds have been reached. */
  lemma SearchComplete(g: Graph, seeds: seq<string>, reached: set<string>)
    requires Settled(g, seeds, reached, [])
    ensures forall v :: v in reached <==> FromSeeds(g, seeds, v)
  {
    forall v ensures v in reached <==> FromSeeds(g, seeds, v) {
      if FromSeeds(g, seeds, v) {
        SeedsHeld(g, seeds, reached, v);
      }
    }
  }

  /** Marks and queues the successors of `curr` that were not seen before, in edge order. */
  method Expand(ghost g: Graph, ghost seeds: seq<string>, ghost universe: set<string>, curr: string,
                targets: seq<string>, seen: set<string>, waiting: seq<string>)
    returns (reached: set<string>, queue: seq<string>)
    requires Frontier(g, seeds, seen, waiting, curr, 0) && targets == Succ(g, curr) && curr in seen
    requires seen <= universe && forall w | w in targets :: w in universe
    ensures Settled(g, seeds, reached, queue)
    ensures seen <= reached <= universe && (reached == seen ==> queue == waiting)
    ensures reached - Elements(queue) == seen - Elements(waiting)
  {
    reached, queue := seen, waiting;
    for k := 0 to |targets|
      invariant Frontier(g, seeds, reached, queue, curr, k)
      invariant seen <= reached <= universe && (reached == seen ==> queue == waiting)
      invariant reached - Elements(queue) == seen - Elements(waiting)
    {
      MarkNext(g, seeds, reached, queue, curr, k);
      if targets[k] !in reached {
        reached := reached + {targets[k]};
        queue := queue + [targets[k]];
      }
    }
    FinishNode(g, seeds, reached, queue, curr);
  }

  // ---------------------------------------------------------------- reachability both ways

  /** The forward pass: follows outgoing edges from the start node. */
  method ReachableFromStart(ctx: Context, start: string) returns (reached: set<string>)
    requires Endpoints(ctx) && start in ctx.nodes
    ensures forall v :: v in reached <==> Reaches(ForwardGraph(ctx), start, v)
  {
    ghost var g := ForwardGraph(ctx);
    var queue := [start];
    reached := {start};
    StartSearch(g, [start]);
    assert Elements([start]) == {start};
    while queue != []
      invariant Settled(g, [start], reached, queue) && reached <= ctx.nodes.Keys
      decreases ctx.nodes.Keys - reached, |queue|
    {
      TakeFirst(g, [start], reached, queue);
      reached, queue := Expand(g, [start], ctx.nodes.Keys, queue[0], Targets(ctx, queue[0]), reached, queue[1..]);
    }
    SearchComplete(g, [start], reached);
    forall v ensures v in reached <==> Reaches(g, start, v) { SingleSeed(g, start, v); }
  }

  lemma SingleSeed(g: Graph, start: string, v: string)
    ensures FromSeeds(g, [start], v) <==> Reaches(g, start, v)
  {
    assert start in [start];
  }

  /** The backward pass: follows incoming edges from all end nodes. */
  method ReachingEnd(ctx: Context, ends: seq<string>) returns (reached: set<string>)
    requires WellBuilt(ctx) && Endpoints(ctx) && Distinct(ends) && forall e | e in ends :: e in ctx.nodes
    ensures forall v :: v in reached <==> ReachesSome(ForwardGraph(ctx), v, ends)
  {
    ghost var g := BackwardGraph(ctx);
    var queue := ends;
    reached := Elements(ends);
    StartSearch(g, ends);
    while queue != []
      invariant Settled(g, ends, reached, queue) && reached <= ctx.nodes.Keys
      decreases ctx.nodes.Keys - reached, |queue|
    {
      TakeFirst(g, ends, reached, queue);
      PrevsAreNodes(ctx, queue[0]);
      reached, queue := Expand(g, ends, ctx.nodes.Keys, queue[0], Prevs(ctx, queue[0]), reached, queue[1..]);
    }
    SearchComplete(g, ends, reached);
    forall v ensures v in reached <==> ReachesSome(ForwardGraph(ctx), v, ends) {
      SeedsReversed(ctx, ends, v);
    }
  }

  ghost predicate ReachesSome(g: Graph, v: string, goals: seq<string>) {
    exists e :: e in goals && Reaches(g, v, e)
  }

  lemma SeedsReversed(ctx: Context, ends: seq<string>, v: string)
    requires WellBuilt(ctx)
    ensures FromSeeds(BackwardGraph(ctx), ends, v) <==> ReachesSome(ForwardGraph(ctx), v, ends)
  {
    IndexesReverse(ctx);
    if FromSeeds(BackwardGraph(ctx), ends, v) {
      var e :| e in ends && Reaches(BackwardGraph(ctx), e, v);
      ReachesReversed(ForwardGraph(ctx), BackwardGraph(ctx), v, e);
    }
    if ReachesSome(ForwardGraph(ctx), v, ends) {
      var e :| e in ends && Reaches(ForwardGraph(ctx), v, e);
      ReachesReversed(ForwardGraph(ctx), BackwardGraph(ctx), v, e);
    }
  }

  lemma PrevsAreNodes(ctx: Context, v: string)
    requires WellBuilt(ctx) && Endpoints(ctx)
    ensures forall p | p in Prevs(ctx, v) :: p in ctx.nodes
  {
    IndexesReverse(ctx);
    forall p | p in Prevs(ctx, v) ensures p in ctx.nodes {
      assert p in Succ(BackwardGraph(ctx), v);
      assert v in Succ(ForwardGraph(ctx), p);
      SourceIsNode(ctx, p, v);
    }
  }

  // ---------------------------------------------------------------- the bounded branch scan

  /** Nodes at which the scan of a branch does not go on. */
  predicate Stops(ctx: Context, v: string, atExclusiveJoin: bool) {
    || KindOf(ctx, v).Merge()
    || (atExclusiveJoin && KindOf(ctx, v).Condition? && |Prevs(ctx, v)| > 1)
    || KindOf(ctx, v).EndNode?
  }

  /** The canvas with the edges out of stopping nodes removed. */
  function Pruned(ctx: Context, atExclusiveJoin: bool): (g: Graph)
    ensures forall v :: Succ(g, v) == if Stops(ctx, v, atExclusiveJoin) then [] else Targets(ctx, v)
  {
    map v | v in ctx.edges && !Stops(ctx, v, atExclusiveJoin) :: Targets(ctx, v)
  }

  /** A scan goes on along every edge but those out of parallel and inclusion gateways and ends, and, if it stops at
      exclusive joins, those out of conditions with several ways in. */
  lemma ScanEdges(ctx: Context, atExclusiveJoin: bool, u: string, v: string)
    ensures v in Succ(Pruned(ctx, atExclusiveJoin), u) <==>
      && v in Targets(ctx, u) && KindOf(ctx, u) != Parallel && KindOf(ctx, u) != Inclusion && KindOf(ctx, u) != EndNode
      && !(atExclusiveJoin && KindOf(ctx, u) == Condition && |Prevs(ctx, u)| > 1)
  {
  }

  datatype BranchScan = BranchScan(gateways: seq<string>, reachedEnd: bool, endNode: string)

  /** The merge gateways and the ends among the processed nodes, and nothing else. */
  ghost predicate Recorded(ctx: Context, processed: set<string>, scan: BranchScan) {
    && Distinct(scan.gateways)
    && (forall v :: v in scan.gateways <==> v in processed && KindOf(ctx, v).Merge())
    && (scan.reachedEnd <==> exists v :: v in processed && KindOf(ctx, v).EndNode?)
    && (scan.reachedEnd ==> scan.endNode in processed && KindOf(ctx, scan.endNode).EndNode?)
  }

  function WithNode(ctx: Context, scan: BranchScan, v: string): BranchScan {
    if KindOf(ctx, v).Merge() then scan.(gateways := scan.gateways + [v])
    else if KindOf(ctx, v).EndNode? then scan.(reachedEnd := true, endNode := v)
    else scan
  }

  lemma RecordNode(ctx: Context, processed: set<string>, scan: BranchScan, v: string)
    requires Recorded(ctx, processed, scan) && v !in processed
    ensures Recorded(ctx, processed + {v}, WithNode(ctx, scan, v))
  {
  }

  /** Walks a branch breadth-first up to its first merge gateways and ends. */
  method ScanBranchDownstream(ctx: Context, start: string, stopAtExclusiveJoin: bool) returns (scan: BranchScan)
    requires Endpoints(ctx)
    ensures Distinct(scan.gateways)
    ensures forall v :: v in scan.gateways <==>
      (KindOf(ctx, v) == Parallel || KindOf(ctx, v) == Inclusion) && Reaches(Pruned(ctx, stopAtExclusiveJoin), start, v)
    ensures scan.reachedEnd <==>
      exists v :: KindOf(ctx, v).EndNode? && Reaches(Pruned(ctx, stopAtExclusiveJoin), start, v)
    ensures scan.reachedEnd ==>
      KindOf(ctx, scan.endNode).EndNode? && Reaches(Pruned(ctx, stopAtExclusiveJoin), start, scan.endNode)
  {
    ghost var g := Pruned(ctx, stopAtExclusiveJoin);
    ghost var universe := ctx.nodes.Keys + {start};
    var joins: seq<string>, endId, reachedEnd := [], "", false;
    var visited := {start};
    var queue := [start];
    ghost var processed: set<string> := {};
    StartSearch(g, [start]);
    assert Elements([start]) == {start};
    while queue != []
      invariant Settled(g, [start], visited, queue) && visited <= universe
      invariant processed == visited - Elements(queue)
      invariant Recorded(ctx, processed, BranchScan(joins, reachedEnd, endId))
      decreases universe - visited, |queue|
    {
      var curr := queue[0];
      TakeFirst(g, [start], visited, queue);
      TakenIsDone(visited, queue);
      assert curr !in processed;
      RecordNode(ctx, processed, BranchScan(joins, reachedEnd, endId), curr);
      processed := processed + {curr};
      var targets := [];
      if KindOf(ctx, curr).Merge() {
        joins := joins + [curr];
      } else if stopAtExclusiveJoin && KindOf(ctx, curr).Condition? && |Prevs(ctx, curr)| > 1 {
      } else if KindOf(ctx, curr).EndNode? {
        reachedEnd, endId := true, curr;
      } else {
        targets := Targets(ctx, curr);
      }
      visited, queue := Expand(g, [start], universe, curr, targets, visited, queue[1..]);
    }
    scan := BranchScan(joins, reachedEnd, endId);
    SearchComplete(g, [start], visited);
    assert processed == visited;
    forall v ensures v in visited <==> Reaches(g, start, v) { SingleSeed(g, start, v); }
  }
}
