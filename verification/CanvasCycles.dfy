/** Cycle detection on the canvas: Kahn's pass, and the depth-first search that names a cycle. */
module CanvasCycles {
  import opened Prelude
  import opened Graphs
  import opened CanvasModel

  ghost predicate Endpoints(ctx: Context) {
    forall u, v | v in Targets(ctx, u) :: u in ctx.nodes && v in ctx.nodes
  }

  /** How many entries of `prevs` are not yet in `done`. */
  function CountOutside(prevs: seq<string>, done: set<string>): (n: nat)
    ensures n == 0 <==> forall p | p in prevs :: p in done
    ensures done == {} ==> n == |prevs|
  {
    if prevs == [] then 0 else
    (if prevs[0] in done then 0 else 1) + CountOutside(prevs[1..], done)
  }

  lemma {:induction false} CountAfter(prevs: seq<string>, done: set<string>, u: string)
    requires u !in done
    ensures CountOutside(prevs, done) == CountOutside(prevs, done + {u}) + multiset(prevs)[u]
  {
    if prevs != [] {
      CountAfter(prevs[1..], done, u);
      assert prevs == [prevs[0]] + prevs[1..];
    }
  }

  // ---------------------------------------------------------------- Kahn's pass

  /** Processed nodes in order: all predecessors of each come before it. */
  ghost predicate Ordered(ctx: Context, order: seq<string>) {
    && Distinct(order)
    && (forall i | 0 <= i < |order| :: order[i] in ctx.nodes)
    && (forall i, p | 0 <= i < |order| && p in Prevs(ctx, order[i]) :: p in order[..i])
  }

  /** In-degrees count the unprocessed predecessors, and the queue holds the nodes that are due. */
  ghost predicate Counts(ctx: Context, inDegree: map<string, int>, done: set<string>) {
    inDegree.Keys == ctx.nodes.Keys
    && forall v | v in ctx.nodes :: inDegree[v] == CountOutside(Prevs(ctx, v), done)
  }

  ghost predicate Due(inDegree: map<string, int>, queue: seq<string>, done: set<string>) {
    && Distinct(queue)
    && (forall v | v in queue :: v in inDegree && v !in done)
    && (forall v | v in inDegree :: inDegree[v] == 0 <==> v in done || v in queue)
  }

  /** What is left after the pass: every node left has a predecessor that is left. */
  ghost predicate Residual(ctx: Context, inDegree: map<string, int>) {
    && inDegree.Keys == ctx.nodes.Keys
    && (forall v | v in ctx.nodes && inDegree[v] > 0 :: HasResidualPrev(ctx, inDegree, v))
  }

  ghost predicate HasResidualPrev(ctx: Context, inDegree: map<string, int>, v: string) {
    exists p :: p in inDegree && inDegree[p] > 0 && v in Targets(ctx, p)
  }

  lemma SourceIsNode(ctx: Context, v: string, w: string)
    requires Endpoints(ctx) && w in Targets(ctx, v)
    ensures v in ctx.nodes && w in ctx.nodes
  {
  }

  lemma OrderIsTopological(ctx: Context, order: seq<string>)
    requires WellBuilt(ctx) && Endpoints(ctx) && Ordered(ctx, order) && Elements(order) == ctx.nodes.Keys
    ensures Acyclic(ForwardGraph(ctx))
  {
    var g := ForwardGraph(ctx);
    IndexesReverse(ctx);
    forall i, w | 0 <= i < |order| && w in Succ(g, order[i]) ensures w in order[i + 1..] {
      assert w in Elements(order);
      var j :| 0 <= j < |order| && order[j] == w;
      assert order[i] in Prevs(ctx, w);
      assert order[i] in order[..j];
      assert order[i + 1..][j - i - 1] == w;
    }
    forall v: string | |Succ(g, v)| > 0 ensures v in order {
      SourceIsNode(ctx, v, Targets(ctx, v)[0]);
      assert v in Elements(order);
    }
    OrderedIsAcyclic(g, order);
  }

  lemma LeftoverIsResidual(ctx: Context, inDegree: map<string, int>, done: set<string>)
    requires WellBuilt(ctx) && Endpoints(ctx) && done <= ctx.nodes.Keys
    requires Counts(ctx, inDegree, done) && Due(inDegree, [], done)
    ensures Residual(ctx, inDegree)
    ensures forall v | v in ctx.nodes :: inDegree[v] > 0 <==> v !in done
  {
    IndexesReverse(ctx);
    forall v | v in ctx.nodes && inDegree[v] > 0 ensures HasResidualPrev(ctx, inDegree, v) {
      var p :| p in Prevs(ctx, v) && p !in done;
      assert v in Targets(ctx, p);
      assert p in ctx.nodes && inDegree[p] != 0;
    }
  }

  /** In-degrees while some outgoing edges of the node being processed are still to be counted off. */
  ghost predicate CountsWith(ctx: Context, inDegree: map<string, int>, done: set<string>, rest: seq<string>) {
    inDegree.Keys == ctx.nodes.Keys
    && forall v | v in ctx.nodes :: inDegree[v] == CountOutside(Prevs(ctx, v), done) + multiset(rest)[v]
  }

  lemma StartRelease(ctx: Context, inDegree: map<string, int>, done: set<string>, curr: string)
    requires WellBuilt(ctx) && curr !in done && Counts(ctx, inDegree, done)
    ensures CountsWith(ctx, inDegree, done + {curr}, Targets(ctx, curr))
  {
    forall v | v in ctx.nodes
      ensures inDegree[v] == CountOutside(Prevs(ctx, v), done + {curr}) + multiset(Targets(ctx, curr))[v]
    {
      CountAfter(Prevs(ctx, v), done, curr);
      assert Balanced(ctx, curr, v);
    }
  }

  lemma ReleaseOne(ctx: Context, inDegree: map<string, int>, done: set<string>, targets: seq<string>, k: nat)
    requires k < |targets| && CountsWith(ctx, inDegree, done, targets[k..]) && targets[k] in ctx.nodes
    ensures inDegree[targets[k]] > 0
    ensures CountsWith(ctx, inDegree[targets[k] := inDegree[targets[k]] - 1], done, targets[k + 1..])
  {
    assert targets[k..] == [targets[k]] + targets[k + 1..];
  }

  lemma ReleaseDue(inDegree: map<string, int>, queue: seq<string>, done: set<string>, v: string)
    requires Due(inDegree, queue, done) && v in inDegree && inDegree[v] > 0
    ensures Due(inDegree[v := inDegree[v] - 1], if inDegree[v] == 1 then queue + [v] else queue, done)
  {
  }

  /** Releases the successors of one processed node. */
  method Release(ctx: Context, curr: string, degrees: map<string, int>, waiting: seq<string>, ghost done: set<string>)
    returns (inDegree: map<string, int>, queue: seq<string>)
    requires WellBuilt(ctx) && Endpoints(ctx) && curr !in done
    requires Counts(ctx, degrees, done) && Due(degrees, [curr] + waiting, done)
    ensures Counts(ctx, inDegree, done + {curr}) && Due(inDegree, queue, done + {curr})
  {
    inDegree, queue := degrees, waiting;
    var targets := Targets(ctx, curr);
    StartRelease(ctx, degrees, done, curr);
    DueTail(degrees, waiting, curr, done);
    assert targets[0..] == targets;
    for k := 0 to |targets|
      invariant CountsWith(ctx, inDegree, done + {curr}, targets[k..])
      invariant Due(inDegree, queue, done + {curr})
    {
      var v := targets[k];
      assert v in Targets(ctx, curr);
      ReleaseOne(ctx, inDegree, done + {curr}, targets, k);
      ReleaseDue(inDegree, queue, done + {curr}, v);
      inDegree := inDegree[v := inDegree[v] - 1];
      if inDegree[v] == 0 {
        queue := queue + [v];
      }
    }
    assert targets[|targets|..] == [];
  }

  lemma DueTail(inDegree: map<string, int>, waiting: seq<string>, curr: string, done: set<string>)
    requires Due(inDegree, [curr] + waiting, done)
    ensures Due(inDegree, waiting, done + {curr})
  {
    var queue := [curr] + waiting;
    forall i, j | 0 <= i < j < |waiting| ensures waiting[i] != waiting[j] {
      assert queue[i + 1] != queue[j + 1];
    }
    forall v | v in waiting ensures v in inDegree && v !in done + {curr} {
      var i :| 0 <= i < |waiting| && waiting[i] == v;
      assert queue[i + 1] == v && queue[0] == curr;
    }
    forall v | v in inDegree ensures inDegree[v] == 0 <==> v in done + {curr} || v in waiting {
      assert v in queue <==> v == curr || v in waiting;
    }
  }

  /** The nodes without predecessors, in the order of `keys`. */
  method SeedQueue(ctx: Context, keys: seq<string>, inDegree: map<string, int>) returns (queue: seq<string>)
    requires Distinct(keys) && Elements(keys) == ctx.nodes.Keys && Counts(ctx, inDegree, {})
    ensures Due(inDegree, queue, {})
  {
    queue := [];
    for k := 0 to |keys|
      invariant Distinct(queue)
      invariant forall v :: v in queue <==> v in keys[..k] && v in inDegree && inDegree[v] == 0
    {
      assert keys[k] in Elements(keys);
      assert keys[..k + 1] == keys[..k] + [keys[k]];
      assert keys[k] !in keys[..k];
      if inDegree[keys[k]] == 0 {
        queue := queue + [keys[k]];
      }
    }
    assert keys[..|keys|] == keys;
    forall v | v in inDegree ensures v in keys { assert v in Elements(keys); }
  }

  /** Kahn's pass, with the keys of the node table visited in whatever order `keys` gives. */
  method TopologicalPass(ctx: Context, keys: seq<string>)
    returns (visitedCount: nat, inDegree: map<string, int>, ghost order: seq<string>)
    requires WellBuilt(ctx) && Endpoints(ctx) && Distinct(keys) && Elements(keys) == ctx.nodes.Keys
    ensures visitedCount == |order| <= |ctx.nodes| && Ordered(ctx, order)
    ensures Residual(ctx, inDegree)
    ensures forall v | v in ctx.nodes :: inDegree[v] > 0 <==> v !in order
  {
    inDegree := map id | id in ctx.nodes :: |Prevs(ctx, id)|;
    var queue := SeedQueue(ctx, keys, inDegree);
    visitedCount, order := 0, [];
    assert Elements(order) == {};
    while queue != []
      invariant Passing(ctx, order, inDegree, queue) && visitedCount == |order| <= |ctx.nodes|
      decreases |ctx.nodes| - |order|
    {
      var curr := queue[0];
      assert queue == [curr] + queue[1..];
      inDegree, queue, order := Process(ctx, curr, inDegree, queue[1..], order);
      visitedCount := visitedCount + 1;
    }
    LeftoverIsResidual(ctx, inDegree, Elements(order));
  }

  ghost predicate Passing(ctx: Context, order: seq<string>, inDegree: map<string, int>, queue: seq<string>) {
    && Ordered(ctx, order)
    && Counts(ctx, inDegree, Elements(order))
    && Due(inDegree, queue, Elements(order))
  }

  /** One turn of the pass: the node at the head of the queue joins the order. */
  method Process(ctx: Context, curr: string, degrees: map<string, int>, waiting: seq<string>, ghost before: seq<string>)
    returns (inDegree: map<string, int>, queue: seq<string>, ghost order: seq<string>)
    requires WellBuilt(ctx) && Endpoints(ctx) && Passing(ctx, before, degrees, [curr] + waiting)
    ensures order == before + [curr] && Passing(ctx, order, inDegree, queue) && |order| <= |ctx.nodes|
  {
    assert curr in [curr] + waiting;
    assert curr in ctx.nodes && CountOutside(Prevs(ctx, curr), Elements(before)) == 0;
    ExtendOrder(ctx, before, curr);
    inDegree, queue := Release(ctx, curr, degrees, waiting, Elements(before));
    order := before + [curr];
    assert Elements(order) == Elements(before) + {curr};
  }

  lemma ExtendOrder(ctx: Context, order: seq<string>, curr: string)
    requires Ordered(ctx, order) && curr in ctx.nodes && curr !in order
    requires CountOutside(Prevs(ctx, curr), Elements(order)) == 0
    ensures Ordered(ctx, order + [curr]) && |order| + 1 <= |ctx.nodes|
  {
    var more := order + [curr];
    forall i, p | 0 <= i < |more| && p in Prevs(ctx, more[i]) ensures p in more[..i] {
      if i < |order| {
        assert more[..i] == order[..i];
      } else {
        assert p in Elements(order) && more[..i] == order;
      }
    }
    assert Distinct(more);
    DistinctLength(more);
    SubsetSize(Elements(more), ctx.nodes.Keys);
    assert |ctx.nodes.Keys| == |ctx.nodes|;
  }

  // ---------------------------------------------------------------- naming a cycle

  /** 0: not visited, 1: on the current path, 2: finished. */
  function MarkIn(visited: map<string, int>, v: string): int {
    if v in visited then visited[v] else 0
  }

  ghost predicate Marked(visited: map<string, int>, path: seq<string>, finished: seq<string>) {
    && Distinct(path) && Distinct(finished)
    && (forall v :: v in path <==> MarkIn(visited, v) == 1)
    && (forall v :: v in finished <==> MarkIn(visited, v) == 2)
    && (forall v | v in visited :: 1 <= visited[v] <= 2)
  }

  lemma LeaveMarks(visited: map<string, int>, path: seq<string>, finished: seq<string>)
    requires Marked(visited, path, finished) && path != []
    ensures var u := path[|path| - 1];
      Marked(visited[u := 2], path[..|path| - 1], finished + [u])
  {
    var u := path[|path| - 1];
    var rest := path[..|path| - 1];
    assert path == rest + [u];
    assert u !in rest && u in path;
    assert MarkIn(visited, u) == 1;
    assert u !in finished;
    assert Distinct(rest) && Distinct(finished + [u]);
    forall v ensures v in rest <==> MarkIn(visited[u := 2], v) == 1 {
      assert v in path <==> v in rest || v == u;
    }
    forall v ensures v in finished + [u] <==> MarkIn(visited[u := 2], v) == 2 {
      assert v in finished <==> MarkIn(visited, v) == 2;
    }
  }

  /** Depth-first search over the nodes Kahn's pass left over. */
  class CycleSearch {
    const ctx: Context
    const cycleNodes: set<string>
    var visited: map<string, int>
    var path: seq<string>
    var cycle: seq<string>
    ghost var finished: seq<string>

    constructor (ctx: Context, cycleNodes: set<string>)
      ensures this.ctx == ctx && this.cycleNodes == cycleNodes && Valid() && path == [] && finished == []
    {
      this.ctx, this.cycleNodes := ctx, cycleNodes;
      visited, path, cycle, finished := map[], [], [], [];
    }

    function Mark(v: string): int
      reads this
    {
      MarkIn(visited, v)
    }

    ghost predicate Valid()
      reads this
    {
      && Marked(visited, path, finished)
      && (forall v | v in path || v in finished :: v in cycleNodes)
      && (path == [] || IsPath(ForwardGraph(ctx), path))
      && ClosesLeft(ForwardGraph(ctx), cycleNodes, finished)
    }

    ghost function Open(): set<string>
      reads this
    {
      cycleNodes - Elements(path) - Elements(finished)
    }

    method Enter(u: string)
      requires Valid() && Mark(u) == 0 && u in cycleNodes
      requires path == [] || u in Targets(ctx, path[|path| - 1])
      modifies this
      ensures Valid() && path == old(path) + [u] && finished == old(finished)
      ensures Open() < old(Open())
    {
      PathGrows(ForwardGraph(ctx), path, u);
      assert u in Open();
      visited := visited[u := 1];
      path := path + [u];
      assert u !in Open();
    }

    method Leave()
      requires Valid() && path != []
      requires forall w | w in Targets(ctx, path[|path| - 1]) && w in cycleNodes :: w in finished
      modifies this
      ensures Valid() && path == old(path)[..|old(path)| - 1]
      ensures finished == old(finished) + [old(path)[|old(path)| - 1]]
    {
      var u := path[|path| - 1];
      FinishClosed(ForwardGraph(ctx), cycleNodes, finished, u);
      PathShrinks(ForwardGraph(ctx), path);
      LeaveMarks(visited, path, finished);
      assert path == path[..|path| - 1] + [u];
      visited := visited[u := 2];
      path := path[..|path| - 1];
      finished := finished + [u];
    }

    method Dfs(u: string) returns (found: bool)
      requires Valid() && Mark(u) == 0 && u in cycleNodes
      requires path == [] || u in Targets(ctx, path[|path| - 1])
      modifies this
      ensures found ==> IsCycle(ForwardGraph(ctx), cycle) && forall v | v in cycle :: v in cycleNodes
      ensures !found ==> Valid() && path == old(path) && u in finished && old(finished) <= finished
      decreases Open()
    {
      Enter(u);
      var targets := Targets(ctx, u);
      for k := 0 to |targets|
        invariant Valid() && path == old(path) + [u] && old(finished) <= finished
        invariant Open() < old(Open())
        invariant forall j | 0 <= j < k && targets[j] in cycleNodes :: targets[j] in finished
      {
        var v := targets[k];
        if v in cycleNodes {
          if Mark(v) == 1 {
            CloseCycle(v);
            return true;
          } else if Mark(v) == 0 {
            found := Dfs(v);
            if found {
              return true;
            }
          }
        }
      }
      Leave();
      found := false;
    }

    method CloseCycle(v: string)
      requires Valid() && Mark(v) == 1 && path != [] && v in Targets(ctx, path[|path| - 1])
      modifies this`cycle
      ensures IsCycle(ForwardGraph(ctx), cycle) && forall w | w in cycle :: w in cycleNodes
    {
      var idx := IndexOf(path, v);
      PathClosesCycle(ForwardGraph(ctx), path, idx, v);
      cycle := path[idx..] + [v];
      assert forall w | w in path[idx..] :: w in path;
    }
  }

  lemma PathShrinks(g: Graph, path: seq<string>)
    requires IsPath(g, path)
    ensures |path| > 1 ==> IsPath(g, path[..|path| - 1])
  {
    if |path| > 1 {
      SubPath(g, path, 0, |path| - 1);
      assert path[0..|path| - 1] == path[..|path| - 1];
    }
  }

  /** Every listed node has all its leftover successors listed further to the left. */
  ghost predicate ClosesLeft(g: Graph, nodes: set<string>, list: seq<string>) {
    forall i, w | 0 <= i < |list| && w in Succ(g, list[i]) && w in nodes :: w in list[..i]
  }

  lemma PathGrows(g: Graph, path: seq<string>, u: string)
    requires path == [] || (IsPath(g, path) && u in Succ(g, path[|path| - 1]))
    ensures IsPath(g, path + [u])
  {
    var q := path + [u];
    forall k: nat | k + 1 < |q| ensures Hop(g, q, k) {
      if k + 1 < |path| { assert Hop(g, path, k); }
    }
  }

  lemma PathClosesCycle(g: Graph, path: seq<string>, idx: nat, v: string)
    requires IsPath(g, path) && idx < |path| && path[idx] == v && v in Succ(g, path[|path| - 1])
    ensures IsCycle(g, path[idx..] + [v])
  {
    SubPath(g, path, idx, |path|);
    assert path[idx..|path|] == path[idx..];
    PathGrows(g, path[idx..], v);
  }

  lemma FinishClosed(g: Graph, nodes: set<string>, list: seq<string>, u: string)
    requires ClosesLeft(g, nodes, list) && forall w | w in Succ(g, u) && w in nodes :: w in list
    ensures ClosesLeft(g, nodes, list + [u])
  {
    var more := list + [u];
    forall i, w | 0 <= i < |more| && w in Succ(g, more[i]) && w in nodes ensures w in more[..i] {
      assert more[..i] == if i < |list| then list[..i] else list;
    }
  }

  /** If the search finished every leftover node, the last one finished would have no leftover
      predecessor; so it cannot finish them all. */
  lemma SearchMustSucceed(ctx: Context, inDegree: map<string, int>, nodes: set<string>, list: seq<string>)
    requires Residual(ctx, inDegree) && nodes == (set v | v in inDegree && inDegree[v] > 0)
    requires Distinct(list) && Elements(list) == nodes && ClosesLeft(ForwardGraph(ctx), nodes, list)
    ensures nodes == {}
  {
    if list == [] {
      assert Elements(list) == {};
    } else {
      var last := list[|list| - 1];
      assert last in Elements(list);
      assert HasResidualPrev(ctx, inDegree, last);
      var p :| p in inDegree && inDegree[p] > 0 && last in Targets(ctx, p);
      assert p in Elements(list);
      var i :| 0 <= i < |list| && list[i] == p;
      LastNotBefore(list, i);
      assert false;
    }
  }

  lemma LastNotBefore(list: seq<string>, i: nat)
    requires Distinct(list) && i < |list|
    ensures list[|list| - 1] !in list[..i]
  {
  }

  lemma AllFinished(keys: seq<string>, nodes: set<string>, list: seq<string>)
    requires forall j | 0 <= j < |keys| && keys[j] in nodes :: keys[j] in list
    requires nodes <= Elements(keys) && forall v | v in list :: v in nodes
    ensures Elements(list) == nodes
  {
    forall v | v in nodes ensures v in list {
      assert v in Elements(keys);
    }
  }

  /** Tries the leftover nodes in the order of `keys` until one of them lies on a cycle. */
  method SearchAll(ctx: Context, nodes: set<string>, keys: seq<string>)
    returns (found: bool, cycle: seq<string>, ghost list: seq<string>)
    ensures found ==> IsCycle(ForwardGraph(ctx), cycle) && forall v | v in cycle :: v in nodes
    ensures !found ==> Distinct(list) && ClosesLeft(ForwardGraph(ctx), nodes, list)
    ensures !found ==> forall v | v in list :: v in nodes
    ensures !found ==> forall j | 0 <= j < |keys| && keys[j] in nodes :: keys[j] in list
  {
    var search := new CycleSearch(ctx, nodes);
    for k := 0 to |keys|
      invariant search.ctx == ctx && search.cycleNodes == nodes && search.Valid() && search.path == []
      invariant forall j | 0 <= j < k && keys[j] in nodes :: keys[j] in search.finished
    {
      if keys[k] in nodes && search.Mark(keys[k]) == 0 {
        found := search.Dfs(keys[k]);
        if found {
          return true, search.cycle, [];
        }
      }
    }
    return false, [], search.finished;
  }

  /** Names a cycle among the leftover nodes, whatever order they are tried in. */
  method FindCyclePath(ctx: Context, inDegree: map<string, int>, keys: seq<string>) returns (cycle: seq<string>)
    requires Residual(ctx, inDegree) && Elements(keys) == ctx.nodes.Keys
    requires exists v :: v in inDegree && inDegree[v] > 0
    ensures IsCycle(ForwardGraph(ctx), cycle)
    ensures forall v | v in cycle :: v in inDegree && inDegree[v] > 0
  {
    var cycleNodes := set v | v in inDegree && inDegree[v] > 0;
    var found, path, list := SearchAll(ctx, cycleNodes, keys);
    if !found {
      AllFinished(keys, cycleNodes, list);
      SearchMustSucceed(ctx, inDegree, cycleNodes, list);
      assert false;
    }
    return path;
  }

  /** Rejects the canvas exactly when it has a directed cycle, and then names a genuine one. */
  method ValidateAcyclic(ctx: Context, keys: seq<string>) returns (cycle: Option<seq<string>>)
    requires WellBuilt(ctx) && Endpoints(ctx) && Distinct(keys) && Elements(keys) == ctx.nodes.Keys
    ensures cycle.None? <==> Acyclic(ForwardGraph(ctx))
    ensures cycle.Some? ==> IsCycle(ForwardGraph(ctx), cycle.value)
  {
    var visitedCount, inDegree, order := TopologicalPass(ctx, keys);
    if visitedCount < |ctx.nodes| {
      LeftoverExists(ctx, order, inDegree);
      var path := FindCyclePath(ctx, inDegree, keys);
      return Some(path);
    }
    FullOrder(ctx, order);
    OrderIsTopological(ctx, order);
    return None;
  }

  lemma LeftoverExists(ctx: Context, order: seq<string>, inDegree: map<string, int>)
    requires Ordered(ctx, order) && |order| < |ctx.nodes| && inDegree.Keys == ctx.nodes.Keys
    requires forall v | v in ctx.nodes :: inDegree[v] > 0 <==> v !in order
    ensures exists v :: v in inDegree && inDegree[v] > 0
  {
    DistinctLength(order);
    assert |ctx.nodes.Keys| == |ctx.nodes|;
    if ctx.nodes.Keys <= Elements(order) {
      SubsetSize(ctx.nodes.Keys, Elements(order));
    }
    var v :| v in ctx.nodes.Keys && v !in Elements(order);
    assert inDegree[v] > 0;
  }

  lemma FullOrder(ctx: Context, order: seq<string>)
    requires Ordered(ctx, order) && |order| == |ctx.nodes|
    ensures Elements(order) == ctx.nodes.Keys
  {
    DistinctLength(order);
    SubsetSize(Elements(order), ctx.nodes.Keys);
    assert |ctx.nodes.Keys| == |ctx.nodes|;
  }
}
