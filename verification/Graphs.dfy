/** Directed graphs given by ordered successor lists, their paths and cycles. */
module Graphs {
  import opened Prelude

  type Graph = map<string, seq<string>>

  function Succ(g: Graph, v: string): seq<string> {
    if v in g then g[v] else []
  }

  predicate Hop(g: Graph, p: seq<string>, k: nat)
    requires k + 1 < |p|
  {
    p[k + 1] in Succ(g, p[k])
  }

  ghost predicate IsPath(g: Graph, p: seq<string>) {
    |p| > 0 && forall k: nat | k + 1 < |p| :: Hop(g, p, k)
  }

  ghost predicate Connects(g: Graph, p: seq<string>, a: string, b: string) {
    IsPath(g, p) && p[0] == a && p[|p| - 1] == b
  }

  ghost predicate Reaches(g: Graph, a: string, b: string) {
    exists p :: Connects(g, p, a, b)
  }

  /** A walk along at least one edge that ends where it began. */
  ghost predicate IsCycle(g: Graph, p: seq<string>) {
    |p| > 1 && IsPath(g, p) && p[0] == p[|p| - 1]
  }

  ghost predicate Acyclic(g: Graph) {
    forall p :: !IsCycle(g, p)
  }

  lemma ReachesSelf(g: Graph, a: string)
    ensures Reaches(g, a, a)
  {
    assert Connects(g, [a], a, a);
  }

  lemma ReachesOne(g: Graph, a: string, b: string, c: string)
    requires Reaches(g, a, b) && c in Succ(g, b)
    ensures Reaches(g, a, c)
  {
    var p :| Connects(g, p, a, b);
    var q := p + [c];
    forall k: nat | k + 1 < |q| ensures Hop(g, q, k) {
      if k + 1 < |p| { assert Hop(g, p, k); }
    }
    assert Connects(g, q, a, c);
  }

  lemma ReachesFront(g: Graph, a: string, b: string, c: string)
    requires b in Succ(g, a) && Reaches(g, b, c)
    ensures Reaches(g, a, c)
  {
    var p :| Connects(g, p, b, c);
    Prepended(g, a, p);
    assert Connects(g, [a] + p, a, c);
  }

  lemma TailPath(g: Graph, p: seq<string>)
    requires IsPath(g, p) && |p| > 1
    ensures IsPath(g, p[1..])
  {
    forall k: nat | k + 1 < |p[1..]| ensures Hop(g, p[1..], k) {
      assert Hop(g, p, k + 1);
    }
  }

  lemma Prepended(g: Graph, v: string, p: seq<string>)
    requires IsPath(g, p) && p[0] in Succ(g, v)
    ensures IsPath(g, [v] + p)
  {
    var q := [v] + p;
    forall k: nat | k + 1 < |q| ensures Hop(g, q, k) {
      if k > 0 { assert Hop(g, p, k - 1); }
    }
  }

  lemma SubPath(g: Graph, p: seq<string>, i: nat, j: nat)
    requires IsPath(g, p) && i < j <= |p|
    ensures IsPath(g, p[i..j])
  {
    forall k: nat | k + 1 < |p[i..j]| ensures Hop(g, p[i..j], k) {
      assert Hop(g, p, i + k);
    }
  }

  /** A set closed under successors holds everything its members reach. */
  lemma {:induction false} ClosedHoldsPath(g: Graph, s: set<string>, p: seq<string>)
    requires forall v, w | v in s && w in Succ(g, v) :: w in s
    requires IsPath(g, p) && p[0] in s
    ensures forall k | 0 <= k < |p| :: p[k] in s
  {
    if |p| > 1 {
      assert Hop(g, p, 0);
      TailPath(g, p);
      ClosedHoldsPath(g, s, p[1..]);
      forall k | 0 <= k < |p| ensures p[k] in s {
        if k > 0 { assert p[1..][k - 1] == p[k]; }
      }
    }
  }

  lemma ClosedHoldsReach(g: Graph, s: set<string>, a: string, b: string)
    requires forall v, w | v in s && w in Succ(g, v) :: w in s
    requires a in s && Reaches(g, a, b)
    ensures b in s
  {
    var p :| Connects(g, p, a, b);
    ClosedHoldsPath(g, s, p);
  }

  /** A vertex without successors reaches only itself. */
  lemma DeadEndReachesSelf(g: Graph, v: string, e: string)
    requires Succ(g, v) == [] && Reaches(g, v, e)
    ensures v == e
  {
    var p :| Connects(g, p, v, e);
    assert |p| == 1 || Hop(g, p, 0);
  }

  // ---------------------------------------------------------------- reaching from several vertices

  ghost predicate FromSeeds(g: Graph, seeds: seq<string>, v: string) {
    exists s :: s in seeds && Reaches(g, s, v)
  }

  lemma SeedReached(g: Graph, seeds: seq<string>, v: string)
    requires v in seeds
    ensures FromSeeds(g, seeds, v)
  {
    ReachesSelf(g, v);
  }

  lemma NextReached(g: Graph, seeds: seq<string>, v: string, w: string)
    requires FromSeeds(g, seeds, v) && w in Succ(g, v)
    ensures FromSeeds(g, seeds, w)
  {
    var s :| s in seeds && Reaches(g, s, v);
    ReachesOne(g, s, v, w);
  }

  lemma SeedsHeld(g: Graph, seeds: seq<string>, held: set<string>, v: string)
    requires FromSeeds(g, seeds, v) && forall s | s in seeds :: s in held
    requires forall x, w | x in held && w in Succ(g, x) :: w in held
    ensures v in held
  {
    var s :| s in seeds && Reaches(g, s, v);
    ClosedHoldsReach(g, held, s, v);
  }

  // ---------------------------------------------------------------- reversal

  ghost predicate Reverses(g: Graph, r: Graph) {
    forall a, b :: b in Succ(g, a) <==> a in Succ(r, b)
  }

  lemma {:induction false} ReversedPath(g: Graph, r: Graph, p: seq<string>)
    requires Reverses(g, r) && IsPath(g, p)
    ensures Reaches(r, p[|p| - 1], p[0])
  {
    if |p| == 1 {
      ReachesSelf(r, p[0]);
    } else {
      TailPath(g, p);
      ReversedPath(g, r, p[1..]);
      assert Hop(g, p, 0);
      ReachesOne(r, p[|p| - 1], p[1], p[0]);
    }
  }

  lemma ReachesReversed(g: Graph, r: Graph, a: string, b: string)
    requires Reverses(g, r)
    ensures Reaches(g, a, b) <==> Reaches(r, b, a)
  {
    if Reaches(g, a, b) {
      var p :| Connects(g, p, a, b);
      ReversedPath(g, r, p);
    }
    if Reaches(r, b, a) {
      var p :| Connects(r, p, b, a);
      assert Reverses(r, g);
      ReversedPath(r, g, p);
    }
  }

  // ---------------------------------------------------------------- order and cycles

  /** Every vertex of `order` has all its successors in `order`, further to the right. */
  ghost predicate Topological(g: Graph, order: seq<string>) {
    && Distinct(order)
    && forall i, w | 0 <= i < |order| && w in Succ(g, order[i]) :: w in order[i + 1..]
  }

  function IndexOf(s: seq<string>, v: string): (i: nat)
    requires v in s
    ensures i < |s| && s[i] == v
  {
    if s[0] == v then 0 else IndexOf(s[1..], v) + 1
  }

  lemma {:induction false} PathRises(g: Graph, order: seq<string>, p: seq<string>)
    requires Topological(g, order) && IsPath(g, p) && p[0] in order
    ensures p[|p| - 1] in order && IndexOf(order, p[|p| - 1]) >= IndexOf(order, p[0]) + |p| - 1
  {
    if |p| > 1 {
      var i := IndexOf(order, p[0]);
      assert Hop(g, p, 0);
      assert p[1] in order[i + 1..];
      var j :| i + 1 <= j < |order| && order[j] == p[1];
      assert IndexOf(order, p[1]) == j;
      TailPath(g, p);
      PathRises(g, order, p[1..]);
    }
  }

  lemma OrderedIsAcyclic(g: Graph, order: seq<string>)
    requires Topological(g, order)
    requires forall v | v !in order :: Succ(g, v) == []
    ensures Acyclic(g)
  {
    forall p ensures !IsCycle(g, p) {
      if IsCycle(g, p) {
        assert Hop(g, p, 0);
        assert p[0] in order;
        PathRises(g, order, p);
      }
    }
  }

  lemma StepCloses(g: Graph, p: seq<string>, v: string)
    requires IsPath(g, p) && p[0] == v && v in Succ(g, p[|p| - 1])
    ensures !Acyclic(g)
  {
    var q := p + [v];
    forall k: nat | k + 1 < |q| ensures Hop(g, q, k) {
      if k + 1 < |p| { assert Hop(g, p, k); }
    }
    assert IsCycle(g, q);
  }

  /** In an acyclic graph no walk visits a vertex twice. */
  lemma AcyclicPathDistinct(g: Graph, p: seq<string>)
    requires Acyclic(g) && IsPath(g, p)
    ensures Distinct(p)
  {
    forall i, j | 0 <= i < j < |p| ensures p[i] != p[j] {
      if p[i] == p[j] {
        SubPath(g, p, i, j + 1);
        assert IsCycle(g, p[i..j + 1]);
      }
    }
  }

  // ---------------------------------------------------------------- ranks and cycles

  ghost predicate Rises(g: Graph, rank: string -> nat) {
    forall v, w {:trigger w in Succ(g, v)} | w in Succ(g, v) :: rank(v) < rank(w)
  }

  lemma {:induction false} RankAlong(g: Graph, rank: string -> nat, p: seq<string>)
    requires Rises(g, rank) && IsPath(g, p)
    ensures rank(p[0]) + |p| - 1 <= rank(p[|p| - 1])
  {
    if |p| > 1 {
      assert Hop(g, p, 0);
      TailPath(g, p);
      RankAlong(g, rank, p[1..]);
    }
  }

  /** A graph whose edges all lead to higher ranks has no cycle. */
  lemma RankedIsAcyclic(g: Graph, rank: string -> nat)
    requires Rises(g, rank)
    ensures Acyclic(g)
  {
    forall p ensures !IsCycle(g, p) {
      if IsCycle(g, p) { RankAlong(g, rank, p); }
    }
  }

  // ---------------------------------------------------------------- walks that must end

  ghost function Vertices(g: Graph): set<string> {
    g.Keys + set v, k | v in g && 0 <= k < |g[v]| :: g[v][k]
  }

  lemma VerticesHold(g: Graph, v: string)
    ensures forall w | w in Succ(g, v) :: w in Vertices(g)
  {
    forall w | w in Succ(g, v) ensures w in Vertices(g) {
      var k :| 0 <= k < |g[v]| && g[v][k] == w;
    }
  }

  lemma JoinedPath(g: Graph, p: seq<string>, q: seq<string>)
    requires IsPath(g, p) && IsPath(g, q) && p[|p| - 1] == q[0]
    ensures IsPath(g, p + q[1..])
  {
    var r := p + q[1..];
    forall k: nat | k + 1 < |r| ensures Hop(g, r, k) {
      if k + 1 < |p| {
        assert Hop(g, p, k);
      } else {
        assert Hop(g, q, k + 1 - |p|);
      }
    }
  }

  /** No walk from `v` can go on for ever: no cycle is reached. */
  ghost predicate Ends(g: Graph, v: string) {
    forall p {:trigger IsCycle(g, p)} | IsCycle(g, p) :: !Reaches(g, v, p[0])
  }

  ghost predicate WalksWithin(g: Graph, v: string, n: nat) {
    forall p {:trigger IsPath(g, p)} | IsPath(g, p) && p[0] == v :: |p| <= n
  }

  ghost function Ahead(g: Graph, v: string): set<string> {
    set w | w in Vertices(g) && Reaches(g, v, w)
  }

  lemma AcyclicEnds(g: Graph, v: string)
    requires Acyclic(g)
    ensures Ends(g, v)
  {
  }

  lemma AheadShrinks(g: Graph, v: string, w: string)
    requires Ends(g, v) && w in Succ(g, v)
    ensures Ends(g, w) && |Ahead(g, w)| < |Ahead(g, v)|
  {
    forall p | IsCycle(g, p) ensures !Reaches(g, w, p[0]) {
      if Reaches(g, w, p[0]) { ReachesFront(g, v, w, p[0]); }
    }
    forall x | x in Ahead(g, w) ensures x in Ahead(g, v) { ReachesFront(g, v, w, x); }
    ReachesSelf(g, v);
    assert v in Vertices(g) && v in Ahead(g, v);
    if Reaches(g, w, v) {
      var p :| Connects(g, p, w, v);
      PathCloses(g, v, p);
    }
    SubsetSize(Ahead(g, w), Ahead(g, v));
  }

  lemma PathCloses(g: Graph, v: string, p: seq<string>)
    requires IsPath(g, p) && p[|p| - 1] == v && p[0] in Succ(g, v)
    ensures !Ends(g, v)
  {
    Prepended(g, v, p);
    assert IsCycle(g, [v] + p);
    ReachesSelf(g, v);
  }

  lemma {:induction false} EndingWalk(g: Graph, p: seq<string>)
    requires IsPath(g, p) && Ends(g, p[0])
    ensures |p| <= |Ahead(g, p[0])| + 1
  {
    if |p| > 1 {
      assert Hop(g, p, 0);
      TailPath(g, p);
      AheadShrinks(g, p[0], p[1]);
      EndingWalk(g, p[1..]);
    }
  }

  lemma {:induction false} AroundAgain(g: Graph, p: seq<string>, n: nat) returns (walk: seq<string>)
    requires IsCycle(g, p)
    ensures IsPath(g, walk) && walk[0] == p[0] == walk[|walk| - 1] && |walk| > n
  {
    walk := p;
    if n > 1 {
      var before := AroundAgain(g, p, n - 1);
      JoinedPath(g, before, p);
      walk := before + p[1..];
    }
  }

  lemma LoopingWalk(g: Graph, v: string, n: nat)
    requires !Ends(g, v)
    ensures !WalksWithin(g, v, n)
  {
    var p :| IsCycle(g, p) && Reaches(g, v, p[0]);
    var q :| Connects(g, q, v, p[0]);
    var around := AroundAgain(g, p, n);
    JoinedPath(g, q, around);
    assert (q + around[1..])[0] == v;
  }

  /** The walks from a vertex are bounded if and only if it reaches no cycle. */
  lemma EndsExactly(g: Graph, v: string)
    ensures Ends(g, v) <==> exists n: nat {:trigger WalksWithin(g, v, n)} :: WalksWithin(g, v, n)
  {
    if Ends(g, v) {
      forall p | IsPath(g, p) && p[0] == v ensures |p| <= |Ahead(g, v)| + 1 { EndingWalk(g, p); }
      assert WalksWithin(g, v, |Ahead(g, v)| + 1);
    } else {
      forall n: nat ensures !WalksWithin(g, v, n) { LoopingWalk(g, v, n); }
    }
  }

  /** Walks from `v` have at most `n` vertices exactly when those from its successors have fewer. */
  lemma WithinBySuccessors(g: Graph, v: string, n: nat)
    ensures WalksWithin(g, v, n) <==> n > 0 && forall w | w in Succ(g, v) :: WalksWithin(g, w, n - 1)
  {
    if WalksWithin(g, v, n) {
      assert IsPath(g, [v]);
      forall w | w in Succ(g, v) ensures WalksWithin(g, w, n - 1) { WithinNext(g, v, w, n); }
    }
    if n > 0 && forall w | w in Succ(g, v) :: WalksWithin(g, w, n - 1) {
      forall p | IsPath(g, p) && p[0] == v ensures |p| <= n {
        if |p| > 1 {
          assert Hop(g, p, 0);
          TailPath(g, p);
          assert WalksWithin(g, p[1], n - 1);
        }
      }
    }
  }

  lemma WithinNext(g: Graph, v: string, w: string, n: nat)
    requires WalksWithin(g, v, n) && w in Succ(g, v) && n > 0
    ensures WalksWithin(g, w, n - 1)
  {
    forall p | IsPath(g, p) && p[0] == w ensures |p| <= n - 1 {
      Prepended(g, v, p);
      assert IsPath(g, [v] + p);
    }
  }
}
