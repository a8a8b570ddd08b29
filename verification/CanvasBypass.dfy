/** An accepted canvas on which one branch of a parallel split reaches the end without passing the merge
    gateway that all branches share. */
module CanvasBypass {
  import opened Prelude
  import opened Graphs
  import opened CanvasModel
  import opened CanvasCycles
  import opened CanvasScan
  import opened CanvasRules
  import opened CanvasValidator

  function At(id: string, kind: NodeKind): Node { Node(id, kind, [], false, 0, "") }

  function To(s: string, t: string): Edge { Edge(s, t, "") }

  function When(s: string, t: string, rule: string): Edge { Edge(s, t, rule) }

  /** Start s, fork f, condition c, gateways j and k, end e; f leads to c and j, c by its rules
      to j or k. */
  const BYPASS := Context(
    map["s" := At("s", StartNode), "f" := At("f", Parallel), "c" := At("c", Condition),
        "j" := At("j", Parallel), "k" := At("k", Parallel), "e" := At("e", EndNode)],
    map["s" := [To("s", "f")], "f" := [To("f", "c"), To("f", "j")], "c" := [When("c", "j", "x"), When("c", "k", "y")],
        "j" := [To("j", "e")], "k" := [To("k", "e")]],
    map["f" := ["s"], "c" := ["f"], "j" := ["f", "c"], "k" := ["c"], "e" := ["j", "k"]])

  const ORDER := ["s", "f", "c", "j", "k", "e"]

  lemma Letters()
    ensures Distinct(ORDER)
  {
    assert ORDER[0][0] == 's' && ORDER[1][0] == 'f' && ORDER[2][0] == 'c' && ORDER[3][0] == 'j' && ORDER[4][0] == 'k'
      && ORDER[5][0] == 'e';
  }

  lemma OutOf(v: string)
    ensures Targets(BYPASS, v) ==
      if v == "s" then ["f"] else if v == "f" then ["c", "j"] else if v == "c" then ["j", "k"]
      else if v == "j" || v == "k" then ["e"] else []
  {
    Letters();
    assert ["f"][0] == "f";
  }

  lemma Kinds(v: string)
    ensures v in BYPASS.nodes <==> v in ORDER
    ensures KindOf(BYPASS, v) ==
      if v == "s" then StartNode else if v == "f" || v == "j" || v == "k" then Parallel
      else if v == "c" then Condition else if v == "e" then EndNode else Unsupported("")
  {
    Letters();
    assert ORDER[0] == "s" && ORDER[1] == "f" && ORDER[2] == "c" && ORDER[3] == "j" && ORDER[4] == "k" && ORDER[5] == "e";
  }

  lemma Ordered(i: nat, w: string)
    requires i < 6 && w in Targets(BYPASS, ORDER[i])
    ensures w in ORDER[i + 1..]
  {
    Letters();
    OutOf(ORDER[i]);
    assert ORDER[i + 1..] == if i == 0 then ["f", "c", "j", "k", "e"] else if i == 1 then ["c", "j", "k", "e"]
      else if i == 2 then ["j", "k", "e"] else if i == 3 then ["k", "e"] else if i == 4 then ["e"] else [];
  }

  lemma IsAcyclic()
    ensures Acyclic(ForwardGraph(BYPASS))
  {
    Letters();
    forall i, w | 0 <= i < |ORDER| && w in Succ(ForwardGraph(BYPASS), ORDER[i]) ensures w in ORDER[i + 1..] {
      Ordered(i, w);
    }
    forall v | v !in ORDER ensures Succ(ForwardGraph(BYPASS), v) == [] {
      OutOf(v);
      assert ORDER[0] == "s" && ORDER[1] == "f" && ORDER[2] == "c" && ORDER[3] == "j" && ORDER[4] == "k";
    }
    OrderedIsAcyclic(ForwardGraph(BYPASS), ORDER);
  }

  lemma EdgesInside()
    ensures Endpoints(BYPASS) && NoSelfLoops(BYPASS)
  {
    Letters();
    forall u, v | v in Targets(BYPASS, u) ensures u in BYPASS.nodes && v in BYPASS.nodes && u != v {
      OutOf(u);
      Kinds(u);
      Kinds(v);
    }
  }

  lemma HasBounds()
    ensures Bounded(BYPASS) && Supported(BYPASS)
  {
    Letters();
    forall v ensures IsStart(BYPASS, v) <==> v == "s" { Kinds(v); }
    forall v ensures IsEnd(BYPASS, v) <==> v == "e" { Kinds(v); }
    forall v | v in BYPASS.nodes ensures !BYPASS.nodes[v].kind.Unsupported? { Kinds(v); }
    assert IsStart(BYPASS, "s") && IsEnd(BYPASS, "e");
    OutOf("e");
  }

  lemma Reachable(v: string)
    requires v in ORDER
    ensures Reaches(ForwardGraph(BYPASS), "s", v) && Reaches(ForwardGraph(BYPASS), v, "e")
  {
    FromS(v);
    ToE(v);
  }

  lemma FromS(v: string)
    requires v in ORDER
    ensures Reaches(ForwardGraph(BYPASS), "s", v)
  {
    var g := ForwardGraph(BYPASS);
    OutOf("s");
    OutOf("f");
    OutOf("c");
    OutOf("j");
    ReachesSelf(g, "s");
    ReachesOne(g, "s", "s", "f");
    ReachesOne(g, "s", "f", "c");
    ReachesOne(g, "s", "c", "j");
    ReachesOne(g, "s", "c", "k");
    ReachesOne(g, "s", "j", "e");
  }

  lemma ToE(v: string)
    requires v in ORDER
    ensures Reaches(ForwardGraph(BYPASS), v, "e")
  {
    var g := ForwardGraph(BYPASS);
    OutOf("s");
    OutOf("f");
    OutOf("c");
    OutOf("j");
    OutOf("k");
    ReachesSelf(g, "e");
    ReachesFront(g, "j", "e", "e");
    ReachesFront(g, "k", "e", "e");
    ReachesFront(g, "c", "j", "e");
    ReachesFront(g, "f", "c", "e");
    ReachesFront(g, "s", "f", "e");
  }

  lemma IsConnected()
    ensures Connected(BYPASS)
  {
    forall v | v in BYPASS.nodes ensures FromStart(BYPASS, v) && ReachesAnEnd(BYPASS, v) {
      Kinds(v);
      Reachable(v);
      forall s | IsStart(BYPASS, s) ensures s == "s" { Kinds(s); }
      Kinds("e");
      assert IsEnd(BYPASS, "e");
    }
  }

  /** Nothing but the gateway itself is seen from `j` or from `k`. */
  lemma StopsAt(flag: bool, v: string, m: string)
    requires (v == "j" || v == "k") && Reaches(Pruned(BYPASS, flag), v, m)
    ensures m == v
  {
    Kinds(v);
    DeadEndReachesSelf(Pruned(BYPASS, flag), v, m);
  }

  lemma ConditionFree(id: string)
    ensures DeadlockFree(BYPASS, id)
  {
    Letters();
    Kinds(id);
    if id == "c" {
      OutOf("c");
      forall m ensures !SharedMerge(BYPASS, "c", m, true) {
        if SharedMerge(BYPASS, "c", m, true) {
          assert Targets(BYPASS, "c")[0] == "j" && Targets(BYPASS, "c")[1] == "k";
          StopsAt(true, "j", m);
          StopsAt(true, "k", m);
        }
      }
    }
  }

  lemma SeenFromC(m: string)
    requires Reaches(Pruned(BYPASS, false), "c", m)
    ensures m == "c" || m == "j" || m == "k"
  {
    var held := {"c", "j", "k"};
    forall v, w | v in held && w in Succ(Pruned(BYPASS, false), v) ensures w in held {
      Kinds(v);
      OutOf(v);
    }
    ClosedHoldsReach(Pruned(BYPASS, false), held, "c", m);
  }

  lemma ForkSharesJ()
    ensures SharedMerge(BYPASS, "f", "j", false)
  {
    OutOf("f");
    Kinds("j");
    SeesJ("c");
    SeesJ("j");
  }

  lemma SeesJ(b: string)
    requires b == "c" || b == "j"
    ensures Reaches(Pruned(BYPASS, false), b, "j")
  {
    ReachesSelf(Pruned(BYPASS, false), "j");
    if b == "c" {
      OutOf("c");
      Kinds("c");
      ReachesFront(Pruned(BYPASS, false), "c", "j", "j");
    }
  }

  lemma ForkNeverEnds()
    ensures !AnyEnds(BYPASS, Targets(BYPASS, "f"))
  {
    Letters();
    OutOf("f");
    forall b, e | (b == "c" || b == "j") && KindOf(BYPASS, e).EndNode? ensures !Reaches(Pruned(BYPASS, false), b, e) {
      Kinds(e);
      if Reaches(Pruned(BYPASS, false), b, e) {
        if b == "c" { SeenFromC(e); } else { StopsAt(false, "j", e); }
      }
    }
  }

  lemma ForksPaired(id: string)
    ensures ForkPaired(BYPASS, id)
  {
    Letters();
    Kinds(id);
    OutOf(id);
    if id == "f" {
      ForkNeverEnds();
      ForkSharesJ();
    }
  }

  // ---------------------------------------------------------------- indexes and rules

  lemma InOf(v: string)
    ensures Prevs(BYPASS, v) ==
      if v == "f" then ["s"] else if v == "c" then ["f"] else if v == "j" then ["f", "c"] else if v == "k" then ["c"]
      else if v == "e" then ["j", "k"] else []
  {
    Letters();
    assert ["s"][0] == "s";
  }

  lemma PairCount(a: string, b: string, x: string)
    ensures multiset([a, b])[x] == (if x == a then 1 else 0) + (if x == b then 1 else 0)
    ensures multiset([a])[x] == if x == a then 1 else 0
  {
  }

  lemma EdgeBalanced(u: string, v: string)
    ensures Balanced(BYPASS, u, v)
  {
    Letters();
    OutOf(u);
    InOf(v);
    PairCount("f", "c", u);
    PairCount("j", "k", u);
    PairCount("c", "j", v);
    PairCount("j", "k", v);
    PairCount("s", "e", u);
    PairCount("f", "e", v);
    PairCount("c", "e", u);
    assert ORDER[0] == "s" && ORDER[1] == "f" && ORDER[2] == "c" && ORDER[3] == "j" && ORDER[4] == "k" && ORDER[5] == "e";
  }

  lemma IsWellBuilt()
    ensures WellBuilt(BYPASS)
  {
    forall u, v ensures Balanced(BYPASS, u, v) { EdgeBalanced(u, v); }
    forall id | id in BYPASS.nodes ensures BYPASS.nodes[id].id == id {}
  }

  lemma OneLetterRule(c: char)
    requires c == 'x' || c == 'y'
    ensures !Blank([c]) && Words(Trim([c])) == [[c]]
  {
    assert !IsSpace(c) && Trim([c]) == [c];
    assert WordEnd([c]) == 1 && [c][1..] == [] && [c][..1] == [c];
    assert Words([]) == [];
  }

  lemma RulesSound(id: string)
    ensures RulesGiven(BYPASS, id) && RulesDiffer(BYPASS, id)
  {
    Letters();
    Kinds(id);
    if id == "c" { RulesOfC(OutEdges(BYPASS, "c")); }
  }

  lemma RulesOfC(edges: seq<Edge>)
    requires edges == [When("c", "j", "x"), When("c", "k", "y")]
    ensures AllWritten(edges) && AllDiffer(edges)
  {
    OneLetterRule('x');
    OneLetterRule('y');
    assert "x"[0] != "y"[0];
    assert [['x']][0] != [['y']][0];
  }

  lemma IsAccepted()
    ensures Accepted(BYPASS)
  {
    IsAcyclic();
    EdgesInside();
    HasBounds();
    IsConnected();
    forall id | id in BYPASS.nodes
      ensures DeadlockFree(BYPASS, id) && ForkPaired(BYPASS, id) && SelectiveSplits(BYPASS, id) && SelectiveWide(BYPASS, id)
      ensures RulesGiven(BYPASS, id) && RulesDiffer(BYPASS, id)
    {
      ConditionFree(id);
      ForksPaired(id);
      Kinds(id);
      RulesSound(id);
    }
  }

  const SIDE := ["c", "k", "e"]

  lemma SideWalk()
    ensures BranchWalk(BYPASS, "f", SIDE)
  {
    OutOf("f");
    OutOf("c");
    OutOf("k");
    Kinds("e");
    assert Hop(ForwardGraph(BYPASS), SIDE, 0) && Hop(ForwardGraph(BYPASS), SIDE, 1);
    assert Targets(BYPASS, "f")[0] == "c";
  }

  lemma SideUnshared(i: nat)
    requires i < 3
    ensures !SharedMerge(BYPASS, "f", SIDE[i], false)
  {
    Letters();
    Kinds(SIDE[i]);
    if SharedMerge(BYPASS, "f", "k", false) {
      OutOf("f");
      assert Targets(BYPASS, "f")[1] == "j";
      StopsAt(false, "j", "k");
    }
  }

  /** The canvas is accepted, yet one branch walk reaches the end past every shared gateway. */
  lemma AcceptedForkMayBypassSharedMerge()
    ensures WellBuilt(BYPASS) && Accepted(BYPASS) && BranchWalk(BYPASS, "f", SIDE)
    ensures forall i | 0 <= i < |SIDE| :: !SharedMerge(BYPASS, "f", SIDE[i], false)
  {
    IsWellBuilt();
    IsAccepted();
    SideWalk();
    forall i | 0 <= i < |SIDE| ensures !SharedMerge(BYPASS, "f", SIDE[i], false) { SideUnshared(i); }
  }
}
