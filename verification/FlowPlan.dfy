/** Process definitions of the flow engine, their validation, and the compiled execution plan. */
module FlowPlan {
  import opened Prelude
  import opened Graphs

  datatype NodeType =
    | Start | End | Approval | CarbonCopy | Automatic | Exclusive | Parallel | Inclusive | Other(name: string)

  datatype SignRule = OneVote | AllPass | Unnamed(rule: string)

  datatype NodeSpec = NodeSpec(id: string, kind: NodeType, sign: SignRule) {
    predicate IsActivity() { kind.Approval? || kind.Automatic? || kind.CarbonCopy? }
    predicate IsGateway() { kind.Exclusive? || kind.Parallel? || kind.Inclusive? }
    predicate IsWaitState() { kind.Approval? }
    predicate CanRejectTo() { kind.Approval? || kind.Start? }
  }

  /** A rule group is kept as its text; `None` lets everything pass. */
  datatype EdgeSpec = EdgeSpec(source: string, target: string, condition: string, rule: Option<string>)

  datatype Definition = Definition(key: string, nodes: seq<NodeSpec>, edges: seq<EdgeSpec>)

  datatype ExecutionPlan = ExecutionPlan(
    nodes: map<string, NodeSpec>, outEdges: map<string, seq<EdgeSpec>>, inEdges: map<string, seq<EdgeSpec>>,
    start: Option<NodeSpec>)

  function Out(plan: ExecutionPlan, id: string): seq<EdgeSpec> {
    Bucket(plan.outEdges, id)
  }

  function In(plan: ExecutionPlan, id: string): seq<EdgeSpec> {
    Bucket(plan.inEdges, id)
  }

  // ---------------------------------------------------------------- validation

  datatype Defect =
    | NoKey | NoNodes | NamelessNode | DuplicateNode | StartCount | NoEnd | UnknownSource | UnknownTarget | SelfLoop
    | EnteredStart | StuckStart | LeftEnd | UnreachedEnd | DanglingGateway

  function CountStarts(nodes: seq<NodeSpec>): nat {
    if nodes == [] then 0 else CountStarts(nodes[..|nodes| - 1]) + if nodes[|nodes| - 1].kind.Start? then 1 else 0
  }

  predicate Entered(def: Definition, id: string) { exists k :: 0 <= k < |def.edges| && def.edges[k].target == id }

  predicate Left(def: Definition, id: string) { exists k :: 0 <= k < |def.edges| && def.edges[k].source == id }

  predicate Declared(def: Definition, id: string) { exists k :: 0 <= k < |def.nodes| && def.nodes[k].id == id }

  ghost predicate DistinctNodes(nodes: seq<NodeSpec>) {
    forall i, j | 0 <= i < j < |nodes| :: nodes[i].id != nodes[j].id
  }

  predicate EdgeSound(def: Definition, e: EdgeSpec) {
    Declared(def, e.source) && Declared(def, e.target) && e.source != e.target
  }

  predicate DegreesSound(def: Definition, n: NodeSpec) {
    if n.kind.Start? then !Entered(def, n.id) && Left(def, n.id)
    else if n.kind.End? then !Left(def, n.id) && Entered(def, n.id)
    else n.IsGateway() ==> Entered(def, n.id) && Left(def, n.id)
  }

  ghost predicate ValidDefinition(def: Definition) {
    && def.key != "" && def.nodes != []
    && (forall k | 0 <= k < |def.nodes| :: def.nodes[k].id != "")
    && DistinctNodes(def.nodes)
    && CountStarts(def.nodes) == 1 && (exists k :: 0 <= k < |def.nodes| && def.nodes[k].kind.End?)
    && (forall k | 0 <= k < |def.edges| :: EdgeSound(def, def.edges[k]))
    && (forall k | 0 <= k < |def.nodes| :: DegreesSound(def, def.nodes[k]))
  }

  /** Counts the edges that leave and enter each node, refusing dangling ends and self-loops. */
  method CountDegrees(def: Definition, ids: set<string>)
    returns (defect: Option<Defect>, outDegree: map<string, nat>, inDegree: map<string, nat>)
    requires forall id :: id in ids <==> Declared(def, id)
    ensures defect.None? <==> forall k | 0 <= k < |def.edges| :: EdgeSound(def, def.edges[k])
    ensures defect.None? ==> forall id :: id in outDegree <==> Left(def, id)
    ensures defect.None? ==> forall id :: id in inDegree <==> Entered(def, id)
    ensures forall id | id in outDegree :: outDegree[id] > 0
    ensures forall id | id in inDegree :: inDegree[id] > 0
  {
    outDegree, inDegree := map[], map[];
    for k := 0 to |def.edges|
      invariant forall j | 0 <= j < k :: EdgeSound(def, def.edges[j])
      invariant forall id :: id in outDegree <==> exists j :: 0 <= j < k && def.edges[j].source == id
      invariant forall id :: id in inDegree <==> exists j :: 0 <= j < k && def.edges[j].target == id
      invariant forall id | id in outDegree :: outDegree[id] > 0
      invariant forall id | id in inDegree :: inDegree[id] > 0
    {
      var e := def.edges[k];
      if e.source !in ids {
        return Some(UnknownSource), outDegree, inDegree;
      }
      if e.target !in ids {
        return Some(UnknownTarget), outDegree, inDegree;
      }
      if e.source == e.target {
        return Some(SelfLoop), outDegree, inDegree;
      }
      outDegree := outDegree[e.source := 1 + if e.source in outDegree then outDegree[e.source] else 0];
      inDegree := inDegree[e.target := 1 + if e.target in inDegree then inDegree[e.target] else 0];
    }
    defect := None;
  }

  method CheckDegrees(def: Definition, outDegree: map<string, nat>, inDegree: map<string, nat>)
    returns (defect: Option<Defect>)
    requires forall id :: id in outDegree <==> Left(def, id)
    requires forall id :: id in inDegree <==> Entered(def, id)
    ensures defect.None? <==> forall k | 0 <= k < |def.nodes| :: DegreesSound(def, def.nodes[k])
  {
    for k := 0 to |def.nodes|
      invariant forall j | 0 <= j < k :: DegreesSound(def, def.nodes[j])
    {
      var n := def.nodes[k];
      if n.kind.Start? {
        if n.id in inDegree { return Some(EnteredStart); }
        if n.id !in outDegree { return Some(StuckStart); }
      } else if n.kind.End? {
        if n.id in outDegree { return Some(LeftEnd); }
        if n.id !in inDegree { return Some(UnreachedEnd); }
      } else if n.IsGateway() {
        if n.id !in inDegree || n.id !in outDegree { return Some(DanglingGateway); }
      }
    }
    defect := None;
  }

  function IdSet(nodes: seq<NodeSpec>): (r: set<string>)
    ensures forall v :: v in r <==> exists k :: 0 <= k < |nodes| && nodes[k].id == v
  {
    set k | 0 <= k < |nodes| :: nodes[k].id
  }

  lemma IdSetGrows(nodes: seq<NodeSpec>)
    requires |nodes| > 0
    ensures var rest, last := nodes[..|nodes| - 1], nodes[|nodes| - 1];
      IdSet(nodes) == IdSet(rest) + {last.id}
      && (DistinctNodes(nodes) <==> DistinctNodes(rest) && last.id !in IdSet(rest))
  {
    var rest, last := nodes[..|nodes| - 1], nodes[|nodes| - 1];
    assert forall k | 0 <= k < |rest| :: rest[k] == nodes[k];
    assert nodes[|rest|] == last;
    forall v | v in IdSet(rest) ensures v in IdSet(nodes) {
      var k :| 0 <= k < |rest| && rest[k].id == v;
      assert nodes[k].id == v;
    }
  }

  /** As many ids as nodes means that no id occurs twice. */
  lemma {:induction false} IdCount(nodes: seq<NodeSpec>)
    ensures |IdSet(nodes)| == |nodes| <==> DistinctNodes(nodes)
    ensures |IdSet(nodes)| <= |nodes|
  {
    if nodes == [] {
      assert IdSet(nodes) == {};
    } else {
      IdCount(nodes[..|nodes| - 1]);
      IdSetGrows(nodes);
    }
  }

  method Validate(def: Definition) returns (defect: Option<Defect>)
    ensures defect.None? <==> ValidDefinition(def)
  {
    if def.key == "" {
      return Some(NoKey);
    }
    if def.nodes == [] {
      return Some(NoNodes);
    }
    if exists k :: 0 <= k < |def.nodes| && def.nodes[k].id == "" {
      return Some(NamelessNode);
    }
    var ids := IdSet(def.nodes);
    IdCount(def.nodes);
    if |ids| != |def.nodes| {
      return Some(DuplicateNode);
    }
    if CountStarts(def.nodes) != 1 {
      return Some(StartCount);
    }
    if !exists k :: 0 <= k < |def.nodes| && def.nodes[k].kind.End? {
      return Some(NoEnd);
    }
    var outDegree, inDegree;
    defect, outDegree, inDegree := CountDegrees(def, ids);
    if defect.Some? {
      return;
    }
    defect := CheckDegrees(def, outDegree, inDegree);
  }

  // ---------------------------------------------------------------- compiling the plan

  /** An edge without a rule group takes the one its condition text parses to. */
  function Normalized(e: EdgeSpec, parse: string -> Option<string>): EdgeSpec {
    if e.rule.None? && e.condition != "" then e.(rule := parse(e.condition)) else e
  }

  function Leaving(edges: seq<EdgeSpec>, id: string, parse: string -> Option<string>): seq<EdgeSpec> {
    if edges == [] then [] else
    var last := edges[|edges| - 1];
    Leaving(edges[..|edges| - 1], id, parse) + (if last.source == id then [Normalized(last, parse)] else [])
  }

  function Entering(edges: seq<EdgeSpec>, id: string, parse: string -> Option<string>): seq<EdgeSpec> {
    if edges == [] then [] else
    var last := edges[|edges| - 1];
    Entering(edges[..|edges| - 1], id, parse) + (if last.target == id then [Normalized(last, parse)] else [])
  }

  /** Nodes are found under their own id, and both edge indexes list the same edges. */
  ghost predicate Indexed(plan: ExecutionPlan) {
    && (forall id {:trigger plan.nodes[id]} | id in plan.nodes :: plan.nodes[id].id == id)
    && (forall s, e {:trigger e in Out(plan, s)} | e in Out(plan, s) :: e.source == s && e in In(plan, e.target))
    && (forall t, e {:trigger e in In(plan, t)} | e in In(plan, t) :: e.target == t && e in Out(plan, e.source))
  }

  ghost predicate Compiles(plan: ExecutionPlan, def: Definition, parse: string -> Option<string>) {
    && (forall id :: Out(plan, id) == Leaving(def.edges, id, parse) && In(plan, id) == Entering(def.edges, id, parse))
    && (forall id :: id in plan.nodes <==> Declared(def, id))
    && (forall id | id in plan.nodes :: plan.nodes[id] in def.nodes && plan.nodes[id].id == id)
    && match plan.start
       case None => forall k | 0 <= k < |def.nodes| :: !def.nodes[k].kind.Start?
       case Some(n) => n in def.nodes && n.kind.Start?
  }

  method IndexNodes(def: Definition) returns (nodes: map<string, NodeSpec>, start: Option<NodeSpec>)
    ensures forall id :: id in nodes <==> Declared(def, id)
    ensures forall id | id in nodes :: nodes[id] in def.nodes && nodes[id].id == id
    ensures start.None? ==> forall k | 0 <= k < |def.nodes| :: !def.nodes[k].kind.Start?
    ensures start.Some? ==> start.value in def.nodes && start.value.kind.Start?
  {
    nodes, start := map[], None;
    for k := 0 to |def.nodes|
      invariant forall id :: id in nodes <==> exists j :: 0 <= j < k && def.nodes[j].id == id
      invariant forall id | id in nodes :: nodes[id] in def.nodes && nodes[id].id == id
      invariant start.None? ==> forall j | 0 <= j < k :: !def.nodes[j].kind.Start?
      invariant start.Some? ==> start.value in def.nodes && start.value.kind.Start?
    {
      nodes := nodes[def.nodes[k].id := def.nodes[k]];
      if def.nodes[k].kind.Start? {
        start := Some(def.nodes[k]);
      }
    }
  }

  lemma IndexStep(edges: seq<EdgeSpec>, k: nat, id: string, parse: string -> Option<string>)
    requires k < |edges|
    ensures Leaving(edges[..k + 1], id, parse) ==
      Leaving(edges[..k], id, parse) + if edges[k].source == id then [Normalized(edges[k], parse)] else []
    ensures Entering(edges[..k + 1], id, parse) ==
      Entering(edges[..k], id, parse) + if edges[k].target == id then [Normalized(edges[k], parse)] else []
  {
    assert edges[..k + 1][..k] == edges[..k];
  }

  ghost predicate IndexesTo(out: map<string, seq<EdgeSpec>>, ins: map<string, seq<EdgeSpec>>, edges: seq<EdgeSpec>,
                           parse: string -> Option<string>) {
    && (forall id :: Bucket(out, id) == Leaving(edges, id, parse))
    && (forall id :: Bucket(ins, id) == Entering(edges, id, parse))
  }

  lemma IndexAdds(out: map<string, seq<EdgeSpec>>, ins: map<string, seq<EdgeSpec>>, edges: seq<EdgeSpec>, k: nat,
                  parse: string -> Option<string>)
    requires k < |edges| && IndexesTo(out, ins, edges[..k], parse)
    ensures var e := Normalized(edges[k], parse);
      IndexesTo(AddTo(out, e.source, e), AddTo(ins, e.target, e), edges[..k + 1], parse)
  {
    var e := Normalized(edges[k], parse);
    forall id ensures Bucket(AddTo(out, e.source, e), id) == Leaving(edges[..k + 1], id, parse) {
      IndexStep(edges, k, id, parse);
    }
    forall id ensures Bucket(AddTo(ins, e.target, e), id) == Entering(edges[..k + 1], id, parse) {
      IndexStep(edges, k, id, parse);
    }
  }

  method IndexEdges(edges: seq<EdgeSpec>, parse: string -> Option<string>)
    returns (out: map<string, seq<EdgeSpec>>, ins: map<string, seq<EdgeSpec>>)
    ensures IndexesTo(out, ins, edges, parse)
  {
    out, ins := map[], map[];
    for k := 0 to |edges|
      invariant IndexesTo(out, ins, edges[..k], parse)
    {
      var e := Normalized(edges[k], parse);
      IndexAdds(out, ins, edges, k, parse);
      out, ins := AddTo(out, e.source, e), AddTo(ins, e.target, e);
    }
    assert edges[..|edges|] == edges;
  }

  method NewExecutionPlan(def: Definition, parse: string -> Option<string>) returns (plan: ExecutionPlan)
    ensures Compiles(plan, def, parse)
  {
    var nodes, start := IndexNodes(def);
    var out, ins := IndexEdges(def.edges, parse);
    plan := ExecutionPlan(nodes, out, ins, start);
  }

  lemma {:induction false} LeavingMember(edges: seq<EdgeSpec>, id: string, parse: string -> Option<string>, e: EdgeSpec)
    ensures e in Leaving(edges, id, parse) <==>
      exists k :: 0 <= k < |edges| && edges[k].source == id && e == Normalized(edges[k], parse)
  {
    if edges != [] {
      var rest := edges[..|edges| - 1];
      LeavingMember(rest, id, parse, e);
      assert forall k | 0 <= k < |rest| :: rest[k] == edges[k];
    }
  }

  lemma {:induction false} EnteringMember(edges: seq<EdgeSpec>, id: string, parse: string -> Option<string>, e: EdgeSpec)
    ensures e in Entering(edges, id, parse) <==>
      exists k :: 0 <= k < |edges| && edges[k].target == id && e == Normalized(edges[k], parse)
  {
    if edges != [] {
      var rest := edges[..|edges| - 1];
      EnteringMember(rest, id, parse, e);
      assert forall k | 0 <= k < |rest| :: rest[k] == edges[k];
    }
  }

  lemma LeavingExact(edges: seq<EdgeSpec>, id: string, parse: string -> Option<string>, e: EdgeSpec)
    ensures e in Leaving(edges, id, parse) <==>
      exists k :: 0 <= k < |edges| && edges[k].source == id && e == Normalized(edges[k], parse)
    ensures e in Entering(edges, id, parse) <==>
      exists k :: 0 <= k < |edges| && edges[k].target == id && e == Normalized(edges[k], parse)
  {
    LeavingMember(edges, id, parse, e);
    EnteringMember(edges, id, parse, e);
  }

  /** What compiling makes of an edge: its ends stay, and so does its rule; without one it takes what its condition text,
      if any, parses to. */
  predicate CompiledFrom(e: EdgeSpec, e': EdgeSpec, parse: string -> Option<string>) {
    && e'.source == e.source && e'.target == e.target && e'.condition == e.condition
    && (e.rule != None ==> e'.rule == e.rule)
    && (e.rule == None && e.condition != "" ==> e'.rule == parse(e.condition))
    && (e.rule == None && e.condition == "" ==> e'.rule == None)
  }

  /** The compiled edges out of a node, and into one, are exactly the definition's. */
  lemma PlanEdgesExactly(plan: ExecutionPlan, def: Definition, parse: string -> Option<string>, id: string, e: EdgeSpec)
    requires Compiles(plan, def, parse)
    ensures e in Out(plan, id) <==>
      exists k :: 0 <= k < |def.edges| && def.edges[k].source == id && CompiledFrom(def.edges[k], e, parse)
    ensures e in In(plan, id) <==>
      exists k :: 0 <= k < |def.edges| && def.edges[k].target == id && CompiledFrom(def.edges[k], e, parse)
  {
    LeavingExact(def.edges, id, parse, e);
    forall k | 0 <= k < |def.edges|
      ensures CompiledFrom(def.edges[k], e, parse) <==> e == Normalized(def.edges[k], parse) {}
  }

  lemma CompiledIsIndexed(plan: ExecutionPlan, def: Definition, parse: string -> Option<string>)
    requires Compiles(plan, def, parse)
    ensures Indexed(plan)
  {
    forall s, e | e in Out(plan, s) ensures e.source == s && e in In(plan, e.target) {
      LeavingExact(def.edges, s, parse, e);
      LeavingExact(def.edges, e.target, parse, e);
    }
    forall t, e | e in In(plan, t) ensures e.target == t && e in Out(plan, e.source) {
      LeavingExact(def.edges, t, parse, e);
      LeavingExact(def.edges, e.source, parse, e);
    }
  }

  /** The plan of a valid definition knows its one start node and both ends of every edge. */
  lemma ValidPlanComplete(plan: ExecutionPlan, def: Definition, parse: string -> Option<string>)
    requires Compiles(plan, def, parse) && ValidDefinition(def)
    ensures plan.start.Some? && Out(plan, plan.start.value.id) != [] && In(plan, plan.start.value.id) == []
    ensures forall s, e | e in Out(plan, s) :: s in plan.nodes && e.target in plan.nodes
  {
    StartExists(def.nodes);
    var n := plan.start.value;
    var k :| 0 <= k < |def.nodes| && def.nodes[k] == n;
    assert DegreesSound(def, def.nodes[k]);
    StartDegrees(plan, def, parse, n.id);
    forall s, e | e in Out(plan, s) ensures s in plan.nodes && e.target in plan.nodes {
      LeavingExact(def.edges, s, parse, e);
      var j :| 0 <= j < |def.edges| && def.edges[j].source == s && e == Normalized(def.edges[j], parse);
      assert EdgeSound(def, def.edges[j]);
    }
  }

  lemma StartDegrees(plan: ExecutionPlan, def: Definition, parse: string -> Option<string>, id: string)
    requires Compiles(plan, def, parse)
    ensures Out(plan, id) != [] <==> Left(def, id)
    ensures In(plan, id) != [] <==> Entered(def, id)
  {
    if |Out(plan, id)| > 0 { LeavingExact(def.edges, id, parse, Out(plan, id)[0]); }
    if |In(plan, id)| > 0 { LeavingExact(def.edges, id, parse, In(plan, id)[0]); }
    if Left(def, id) {
      var k :| 0 <= k < |def.edges| && def.edges[k].source == id;
      LeavingExact(def.edges, id, parse, Normalized(def.edges[k], parse));
    }
    if Entered(def, id) {
      var k :| 0 <= k < |def.edges| && def.edges[k].target == id;
      LeavingExact(def.edges, id, parse, Normalized(def.edges[k], parse));
    }
  }

  /** In the plan of a valid definition gateways are entered and left, ends entered and never left, starts the reverse. */
  lemma ValidPlanConnected(plan: ExecutionPlan, def: Definition, parse: string -> Option<string>, id: string)
    requires Compiles(plan, def, parse) && ValidDefinition(def) && id in plan.nodes
    ensures plan.nodes[id].kind in {Exclusive, Parallel, Inclusive} ==> In(plan, id) != [] && Out(plan, id) != []
    ensures plan.nodes[id].kind == End ==> In(plan, id) != [] && Out(plan, id) == []
    ensures plan.nodes[id].kind == Start ==> In(plan, id) == [] && Out(plan, id) != []
  {
    var k :| 0 <= k < |def.nodes| && def.nodes[k] == plan.nodes[id];
    assert DegreesSound(def, def.nodes[k]);
    StartDegrees(plan, def, parse, id);
  }

  /** One start means exactly one. */
  lemma {:induction false} OneStart(nodes: seq<NodeSpec>)
    ensures CountStarts(nodes) == 1 <==> exists k :: OnlyStart(nodes, k)
  {
    if nodes != [] {
      var rest, last := nodes[..|nodes| - 1], |nodes| - 1;
      OneStart(rest);
      StartExists(rest);
      assert forall j | 0 <= j < |rest| :: rest[j] == nodes[j];
      if CountStarts(nodes) == 1 {
        if nodes[last].kind == Start {
          assert OnlyStart(nodes, last);
        } else {
          var k :| OnlyStart(rest, k);
          assert OnlyStart(nodes, k);
        }
      }
      if exists k :: OnlyStart(nodes, k) {
        var k :| OnlyStart(nodes, k);
        if k < last { assert OnlyStart(rest, k); }
      }
    }
  }

  ghost predicate OnlyStart(nodes: seq<NodeSpec>, k: int) {
    0 <= k < |nodes| && nodes[k].kind == Start && forall j | 0 <= j < |nodes| && j != k :: nodes[j].kind != Start
  }

  lemma {:induction false} StartExists(nodes: seq<NodeSpec>)
    ensures CountStarts(nodes) > 0 <==> exists k :: 0 <= k < |nodes| && nodes[k].kind.Start?
  {
    if nodes != [] {
      StartExists(nodes[..|nodes| - 1]);
      assert nodes == nodes[..|nodes| - 1] + [nodes[|nodes| - 1]];
    }
  }
}
