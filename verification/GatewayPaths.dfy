/** The bounded breadth-first search for a path that runs through gateways only. */
module GatewayPaths {
  import opened Prelude
  import opened Graphs
  import opened EffectiveGraph

  /** Paths with more nodes than this are not extended. */
  const EXPAND_LIMIT: nat := 20

  predicate IsGateway(m: NodeMap, v: string) { v in m && m[v].kind.GatewayNode? }

  /** A walk from `a` on which every later node is a gateway. */
  ghost predicate GatewayWalk(m: NodeMap, g: Graph, a: string, p: seq<string>) {
    IsPath(g, p) && p[0] == a && forall i | 0 < i < |p| :: IsGateway(m, p[i])
  }

  /** A walk from `a` to `b` with only gateways in between. */
  ghost predicate GatewayPath(m: NodeMap, g: Graph, a: string, b: string, p: seq<string>) {
    IsPath(g, p) && p[0] == a && p[|p| - 1] == b && forall i | 0 < i < |p| - 1 :: IsGateway(m, p[i])
  }

  // ---------------------------------------------------------------- the search state

  /** A visited node with the path it was reached by: duplicate-free, over visited nodes, and shortest. */
  ghost predicate Reached(m: NodeMap, g: Graph, a: string, at: map<string, seq<string>>, v: string)
    requires v in at
  {
    && GatewayWalk(m, g, a, at[v]) && at[v][|at[v]| - 1] == v && Distinct(at[v])
    && (forall i | 0 <= i < |at[v]| :: at[v][i] in at)
  }

  ghost predicate Shortest(m: NodeMap, g: Graph, a: string, at: map<string, seq<string>>, v: string)
    requires v in at
  {
    forall p | GatewayWalk(m, g, a, p) && p[|p| - 1] == v :: |at[v]| <= |p|
  }

  /** A processed node is not the goal; unless it lies too deep its gateway successors are visited and
      the goal is none of its successors. */
  ghost predicate Expanded(m: NodeMap, g: Graph, b: string, at: map<string, seq<string>>, v: string)
    requires v in at
  {
    v != b && (|at[v]| <= EXPAND_LIMIT ==> forall w | w in Succ(g, v) :: w != b && (IsGateway(m, w) ==> w in at))
  }

  ghost predicate AllReached(m: NodeMap, g: Graph, a: string, at: map<string, seq<string>>) {
    && a in at && at[a] == [a]
    && (forall v {:trigger Reached(m, g, a, at, v)} | v in at :: Reached(m, g, a, at, v))
    && (forall v {:trigger Shortest(m, g, a, at, v)} | v in at :: Shortest(m, g, a, at, v))
  }

  /** A queued path is the recorded path of its last node. */
  ghost predicate Entry(at: map<string, seq<string>>, path: seq<string>) {
    |path| > 0 && path[|path| - 1] in at && at[path[|path| - 1]] == path
  }

  ghost predicate Levelled(at: map<string, seq<string>>, queue: seq<seq<string>>, low: nat) {
    && (forall i | 0 <= i < |queue| :: Entry(at, queue[i]) && low <= |queue[i]| <= low + 1)
    && (forall i, j | 0 <= i < j < |queue| :: |queue[i]| <= |queue[j]|)
  }

  /** Every visited node is processed, being processed, or queued. */
  ghost predicate Queued(at: map<string, seq<string>>, queue: seq<seq<string>>, done: set<string>) {
    (forall v | v in done :: v in at) && (forall v | v in at && v !in done :: at[v] in queue)
  }

  ghost predicate AllExpanded(m: NodeMap, g: Graph, b: string, at: map<string, seq<string>>, done: set<string>) {
    && (forall v | v in done :: v in at)
    && (forall v {:trigger Expanded(m, g, b, at, v)} | v in done :: Expanded(m, g, b, at, v))
  }

  /** Up to the depth at which everything is processed, walks lead to visited nodes only. */
  lemma {:induction false} WalkVisited(m: NodeMap, g: Graph, a: string, b: string, at: map<string, seq<string>>,
                                       done: set<string>, depth: nat, p: seq<string>)
    requires AllReached(m, g, a, at) && AllExpanded(m, g, b, at, done)
    requires forall v | v in at && |at[v]| < depth :: v in done
    requires GatewayWalk(m, g, a, p) && |p| <= depth && |p| <= EXPAND_LIMIT + 1
    ensures p[|p| - 1] in at && |at[p[|p| - 1]]| <= |p|
  {
    if |p| > 1 {
      var q := p[..|p| - 1];
      SubPath(g, p, 0, |p| - 1);
      assert p[0..|p| - 1] == q;
      WalkVisited(m, g, a, b, at, done, depth, q);
      assert Hop(g, p, |p| - 2);
      var u := q[|q| - 1];
      assert Expanded(m, g, b, at, u);
      assert Shortest(m, g, a, at, p[|p| - 1]);
    }
  }

  lemma GoalNotNext(m: NodeMap, g: Graph, b: string, at: map<string, seq<string>>, u: string)
    requires u in at && Expanded(m, g, b, at, u) && |at[u]| <= EXPAND_LIMIT
    ensures b !in Succ(g, u)
  {
  }

  /** No path to the goal is shorter than one step beyond what has been processed. */
  lemma GoalBeyond(m: NodeMap, g: Graph, a: string, b: string, at: map<string, seq<string>>,
                   done: set<string>, depth: nat, p: seq<string>)
    requires AllReached(m, g, a, at) && AllExpanded(m, g, b, at, done)
    requires forall v | v in at && |at[v]| < depth :: v in done
    requires a != b && GatewayPath(m, g, a, b, p) && |p| <= EXPAND_LIMIT + 1
    ensures |p| > depth
  {
    if |p| <= depth {
      var q := p[..|p| - 1];
      SubPath(g, p, 0, |p| - 1);
      assert p[0..|p| - 1] == q;
      WalkVisited(m, g, a, b, at, done, depth, q);
      assert Hop(g, p, |p| - 2);
      var u := q[|q| - 1];
      assert u in done;
      GoalNotNext(m, g, b, at, u);
    }
  }

  lemma ExtendedWalk(m: NodeMap, g: Graph, a: string, p: seq<string>, w: string)
    requires GatewayWalk(m, g, a, p) && w in Succ(g, p[|p| - 1])
    ensures IsGateway(m, w) ==> GatewayWalk(m, g, a, p + [w])
    ensures GatewayPath(m, g, a, w, p + [w])
  {
    var q := p + [w];
    forall k: nat | k + 1 < |q| ensures Hop(g, q, k) {
      if k + 1 < |p| { assert Hop(g, p, k); }
    }
  }

  /** Visiting a gateway one step beyond the node being processed. */
  lemma VisitGateway(m: NodeMap, g: Graph, a: string, b: string, at: map<string, seq<string>>,
                     done: set<string>, curr: string, w: string)
    requires AllReached(m, g, a, at) && AllExpanded(m, g, b, at, done) && curr in at && w in Succ(g, curr)
    requires forall v | v in at && |at[v]| < |at[curr]| :: v in done
    requires |at[curr]| <= EXPAND_LIMIT && IsGateway(m, w) && w !in at
    ensures AllReached(m, g, a, at[w := at[curr] + [w]])
  {
    var next := at[w := at[curr] + [w]];
    assert Reached(m, g, a, at, curr);
    ExtendedWalk(m, g, a, at[curr], w);
    forall v | v in next ensures Reached(m, g, a, next, v) && Shortest(m, g, a, next, v) {
      if v != w {
        assert Reached(m, g, a, at, v) && Shortest(m, g, a, at, v);
      } else {
        forall p | GatewayWalk(m, g, a, p) && p[|p| - 1] == w ensures |at[curr]| + 1 <= |p| {
          if |p| <= |at[curr]| { WalkVisited(m, g, a, b, at, done, |at[curr]|, p); }
        }
      }
    }
  }

  lemma StillExpanded(m: NodeMap, g: Graph, b: string, at: map<string, seq<string>>, done: set<string>,
                      w: string, path: seq<string>)
    requires AllExpanded(m, g, b, at, done) && w !in at
    ensures AllExpanded(m, g, b, at[w := path], done)
  {
    forall v | v in done ensures v in at[w := path] && Expanded(m, g, b, at[w := path], v) {
      assert Expanded(m, g, b, at, v);
    }
  }

  // ---------------------------------------------------------------- the search

  /** Visits the unseen gateway successors of the last node of `path`, unless the goal is one of them. */
  method ExpandNode(m: NodeMap, g: Graph, ghost a: string, b: string, path: seq<string>, seen: set<string>,
                    waiting: seq<seq<string>>, ghost at: map<string, seq<string>>, ghost done: set<string>)
    returns (found: bool, queue: seq<seq<string>>, visited: set<string>, ghost at': map<string, seq<string>>)
    requires AllReached(m, g, a, at) && AllExpanded(m, g, b, at, done) && seen == at.Keys && b !in at
    requires Entry(at, path) && |path| <= EXPAND_LIMIT
    requires forall v | v in at && |at[v]| < |path| :: v in done
    requires Levelled(at, waiting, |path|) && Queued(at, [path] + waiting, done)
    ensures found ==> b in Succ(g, path[|path| - 1])
    ensures !found ==> AllReached(m, g, a, at') && visited == at'.Keys && b !in at'
    ensures !found ==> AllExpanded(m, g, b, at', done + {path[|path| - 1]})
    ensures !found ==> Levelled(at', queue, |path|) && Queued(at', queue, done + {path[|path| - 1]})
    ensures !found ==> seen <= visited && visited - seen <= m.Keys && (visited == seen ==> queue == waiting)
  {
    var curr := path[|path| - 1];
    var nextIds := Succ(g, curr);
    found, queue, visited, at' := false, waiting, seen, at;
    for k := 0 to |nextIds|
      invariant AllReached(m, g, a, at') && AllExpanded(m, g, b, at', done) && visited == at'.Keys && b !in at'
      invariant Entry(at', path)
      invariant forall v | v in at' && |at'[v]| < |path| :: v in done
      invariant Levelled(at', queue, |path|) && Queued(at', [path] + queue, done)
      invariant seen <= visited && visited - seen <= m.Keys && (visited == seen ==> queue == waiting)
      invariant forall j | 0 <= j < k :: nextIds[j] != b && (IsGateway(m, nextIds[j]) ==> nextIds[j] in at')
    {
      var w := nextIds[k];
      if w == b {
        return true, queue, visited, at';
      }
      if IsGateway(m, w) && w !in visited {
        VisitGateway(m, g, a, b, at', done, curr, w);
        StillExpanded(m, g, b, at', done, w, path + [w]);
        StillQueued(at', [path] + queue, done, w, path + [w]);
        assert [path] + queue + [path + [w]] == [path] + (queue + [path + [w]]);
        StillLevelled(at', queue, |path|, w, path + [w]);
        visited := visited + {w};
        at' := at'[w := path + [w]];
        queue := queue + [path + [w]];
      }
    }
    NowExpanded(m, g, b, at', done, curr);
    ReachedPathsEnd(m, g, a, at');
    NowProcessed(at', path, queue, done);
  }

  lemma StillQueued(at: map<string, seq<string>>, queue: seq<seq<string>>, done: set<string>, w: string, path: seq<string>)
    requires Queued(at, queue, done) && w !in at
    ensures Queued(at[w := path], queue + [path], done)
  {
    assert (queue + [path])[|queue|] == path;
    assert forall p | p in queue :: p in queue + [path];
  }

  lemma StillLevelled(at: map<string, seq<string>>, queue: seq<seq<string>>, low: nat, w: string, path: seq<string>)
    requires Levelled(at, queue, low) && w !in at && |path| == low + 1 && path[low] == w
    ensures Levelled(at[w := path], queue + [path], low)
  {
    forall i | 0 <= i < |queue| ensures Entry(at[w := path], queue[i]) { assert Entry(at, queue[i]); }
  }

  lemma NowExpanded(m: NodeMap, g: Graph, b: string, at: map<string, seq<string>>, done: set<string>, curr: string)
    requires AllExpanded(m, g, b, at, done) && curr in at && curr != b
    requires forall w | w in Succ(g, curr) :: w != b && (IsGateway(m, w) ==> w in at)
    ensures AllExpanded(m, g, b, at, done + {curr})
  {
    assert Expanded(m, g, b, at, curr);
  }

  ghost predicate PathsEnd(at: map<string, seq<string>>) {
    forall v | v in at :: |at[v]| > 0 && at[v][|at[v]| - 1] == v
  }

  lemma ReachedPathsEnd(m: NodeMap, g: Graph, a: string, at: map<string, seq<string>>)
    requires AllReached(m, g, a, at)
    ensures PathsEnd(at)
  {
    forall v | v in at ensures |at[v]| > 0 && at[v][|at[v]| - 1] == v { assert Reached(m, g, a, at, v); }
  }

  lemma NowProcessed(at: map<string, seq<string>>, path: seq<string>, queue: seq<seq<string>>, done: set<string>)
    requires Queued(at, [path] + queue, done) && Entry(at, path) && PathsEnd(at)
    ensures Queued(at, queue, done + {path[|path| - 1]})
  {
    forall v | v in at && v !in done && v != path[|path| - 1] ensures at[v] in queue {
      assert at[v] in [path] + queue;
    }
  }

  ghost predicate Answers(m: NodeMap, g: Graph, a: string, b: string, r: Option<seq<string>>) {
    match r
    case Some(p) =>
      GatewayPath(m, g, a, b, p) && Distinct(p) && forall q | GatewayPath(m, g, a, b, q) :: |p| <= |q|
    case None => forall q | GatewayPath(m, g, a, b, q) :: |q| > EXPAND_LIMIT + 1
  }

  lemma FoundAnswer(m: NodeMap, g: Graph, a: string, b: string, at: map<string, seq<string>>, done: set<string>,
                    path: seq<string>)
    requires AllReached(m, g, a, at) && AllExpanded(m, g, b, at, done) && b !in at && a != b
    requires Entry(at, path) && |path| <= EXPAND_LIMIT && b in Succ(g, path[|path| - 1])
    requires forall v | v in at && |at[v]| < |path| :: v in done
    ensures Answers(m, g, a, b, Some(path + [b]))
  {
    var curr := path[|path| - 1];
    assert Reached(m, g, a, at, curr);
    ExtendedWalk(m, g, a, path, b);
    forall q | GatewayPath(m, g, a, b, q) ensures |path| + 1 <= |q| {
      if |q| <= |path| { GoalBeyond(m, g, a, b, at, done, |path|, q); }
    }
  }

  lemma NoAnswer(m: NodeMap, g: Graph, a: string, b: string, at: map<string, seq<string>>, done: set<string>)
    requires AllReached(m, g, a, at) && AllExpanded(m, g, b, at, done) && a != b && Queued(at, [], done)
    ensures Answers(m, g, a, b, None)
  {
    forall q | GatewayPath(m, g, a, b, q) ensures |q| > EXPAND_LIMIT + 1 {
      if |q| <= EXPAND_LIMIT + 1 { GoalBeyond(m, g, a, b, at, done, EXPAND_LIMIT + 1, q); }
    }
  }

  lemma Trivial(m: NodeMap, g: Graph, a: string)
    ensures Answers(m, g, a, a, Some([a]))
  {
  }

  lemma ShallowProcessed(at: map<string, seq<string>>, path: seq<string>, queue: seq<seq<string>>, done: set<string>)
    requires Queued(at, [path] + queue, done) && Levelled(at, [path] + queue, |path|)
    ensures forall v | v in at && |at[v]| < |path| :: v in done
    ensures Levelled(at, queue, |path|) && Entry(at, path)
  {
    var all := [path] + queue;
    assert all[0] == path;
    forall i | 0 <= i < |queue| ensures Entry(at, queue[i]) && |path| <= |queue[i]| <= |path| + 1 {
      assert all[i + 1] == queue[i];
    }
    forall i, j | 0 <= i < j < |queue| ensures |queue[i]| <= |queue[j]| {
      assert all[i + 1] == queue[i] && all[j + 1] == queue[j];
    }
  }

  lemma Relevel(at: map<string, seq<string>>, queue: seq<seq<string>>, low: nat)
    requires Levelled(at, queue, low)
    ensures Levelled(at, queue, if queue == [] then 0 else |queue[0]|)
  {
  }

  lemma TooDeep(m: NodeMap, g: Graph, b: string, at: map<string, seq<string>>, done: set<string>, curr: string)
    requires AllExpanded(m, g, b, at, done) && curr in at && b !in at && |at[curr]| > EXPAND_LIMIT
    ensures AllExpanded(m, g, b, at, done + {curr})
  {
    assert Expanded(m, g, b, at, curr);
  }

  lemma SearchStarts(m: NodeMap, g: Graph, a: string, b: string)
    ensures AllReached(m, g, a, map[a := [a]]) && AllExpanded(m, g, b, map[a := [a]], {})
    ensures Queued(map[a := [a]], [[a]], {}) && Levelled(map[a := [a]], [[a]], 1)
  {
    assert Reached(m, g, a, map[a := [a]], a) && Shortest(m, g, a, map[a := [a]], a);
  }

  /** Finds a shortest path between two nodes with only gateways in between, within the depth limit. */
  method FindPathThroughGateways(m: NodeMap, g: Graph, a: string, b: string) returns (r: Option<seq<string>>)
    ensures Answers(m, g, a, b, r)
    ensures r == None ==> forall q | GatewayPath(m, g, a, b, q) :: |q| > 21
  {
    if a == b {
      Trivial(m, g, a);
      return Some([a]);
    }
    var queue, visited := [[a]], {a};
    ghost var at: map<string, seq<string>>, done: set<string> := map[a := [a]], {};
    SearchStarts(m, g, a, b);
    while queue != []
      invariant AllReached(m, g, a, at) && AllExpanded(m, g, b, at, done) && visited == at.Keys && b !in at
      invariant Queued(at, queue, done) && Levelled(at, queue, if queue == [] then 0 else |queue[0]|)
      invariant visited <= m.Keys + {a}
      decreases m.Keys + {a} - visited, |queue|
    {
      var path := queue[0];
      assert queue == [path] + queue[1..];
      queue := queue[1..];
      ShallowProcessed(at, path, queue, done);
      if |path| <= EXPAND_LIMIT {
        var found;
        ghost var at';
        found, queue, visited, at' := ExpandNode(m, g, a, b, path, visited, queue, at, done);
        if found {
          FoundAnswer(m, g, a, b, at, done, path);
          return Some(path + [b]);
        }
        at := at';
      } else {
        TooDeep(m, g, b, at, done, path[|path| - 1]);
        ReachedPathsEnd(m, g, a, at);
        NowProcessed(at, path, queue, done);
      }
      done := done + {path[|path| - 1]};
      Relevel(at, queue, |path|);
    }
    NoAnswer(m, g, a, b, at, done);
    r := None;
  }
}
