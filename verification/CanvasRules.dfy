/** The rules on the branches of conditions and selective gateways: written down where a choice depends on
    them, and pairwise different. */
module CanvasRules {
  import opened Prelude
  import opened Graphs
  import opened CanvasModel
  import opened CanvasCycles

  /** A condition node that a selective gateway leads to. */
  predicate SelectiveBranch(ctx: Context, id: string) {
    exists k :: 0 <= k < |Prevs(ctx, id)| && KindOf(ctx, Prevs(ctx, id)[k]).Selective?
  }

  predicate NeedsRules(ctx: Context, id: string) {
    KindOf(ctx, id).Condition? && (|OutEdges(ctx, id)| > 1 || SelectiveBranch(ctx, id))
  }

  predicate AllWritten(edges: seq<Edge>) { forall k | 0 <= k < |edges| :: !Blank(edges[k].expression) }

  /** Where the choice of branches depends on the rules, every branch has one. */
  predicate RulesGiven(ctx: Context, id: string) { NeedsRules(ctx, id) ==> AllWritten(OutEdges(ctx, id)) }

  /** The same words in the same order, however they are spaced. */
  predicate SameRule(a: Edge, b: Edge) {
    !Blank(a.expression) && !Blank(b.expression) && Words(Trim(a.expression)) == Words(Trim(b.expression))
  }

  ghost predicate AllDiffer(edges: seq<Edge>) {
    forall i, j {:trigger SameRule(edges[i], edges[j])} | 0 <= i < j < |edges| :: !SameRule(edges[i], edges[j])
  }

  /** The edges out of the condition nodes that the given edges lead to, in order. */
  function BranchEdges(ctx: Context, edges: seq<Edge>): seq<Edge> {
    if edges == [] then [] else
    var last := edges[|edges| - 1];
    BranchEdges(ctx, edges[..|edges| - 1])
    + (if KindOf(ctx, last.target).Condition? then OutEdges(ctx, last.target) else [])
  }

  /** The edges whose rules decide at `id`. */
  function Choices(ctx: Context, id: string): seq<Edge> {
    match KindOf(ctx, id)
    case Selective => BranchEdges(ctx, OutEdges(ctx, id))
    case Condition => if |OutEdges(ctx, id)| > 1 then OutEdges(ctx, id) else []
    case _ => []
  }

  ghost predicate RulesDiffer(ctx: Context, id: string) { AllDiffer(Choices(ctx, id)) }

  ghost predicate AllRulesGiven(ctx: Context) {
    forall id {:trigger RulesGiven(ctx, id)} | id in ctx.nodes :: RulesGiven(ctx, id)
  }

  ghost predicate AllRulesDiffer(ctx: Context) {
    forall id {:trigger RulesDiffer(ctx, id)} | id in ctx.nodes :: RulesDiffer(ctx, id)
  }

  // ---------------------------------------------------------------- the validators

  /** No rule is missing where one is needed. */
  method ValidateConditionExpressions(ctx: Context, keys: seq<string>) returns (ok: bool)
    requires forall v :: v in keys <==> v in ctx.nodes
    ensures ok <==> AllRulesGiven(ctx)
  {
    for k := 0 to |keys|
      invariant forall j {:trigger RulesGiven(ctx, keys[j])} | 0 <= j < k :: RulesGiven(ctx, keys[j])
    {
      if NeedsRules(ctx, keys[k]) && exists j :: 0 <= j < |OutEdges(ctx, keys[k])| && Blank(OutEdges(ctx, keys[k])[j].expression) {
        assert !RulesGiven(ctx, keys[k]) && keys[k] in ctx.nodes;
        return false;
      }
      assert RulesGiven(ctx, keys[k]);
    }
    forall id | id in ctx.nodes ensures RulesGiven(ctx, id) {
      var j :| 0 <= j < |keys| && keys[j] == id;
      assert RulesGiven(ctx, keys[j]);
    }
    return true;
  }

  /** `seen` holds the normal forms of the rules of `done`, all of which differ. */
  ghost predicate Seen(seen: set<string>, done: seq<Edge>) {
    AllDiffer(done) && forall r :: r in seen <==> Rules(done, r)
  }

  ghost predicate Rules(edges: seq<Edge>, r: string) {
    exists k :: 0 <= k < |edges| && !Blank(edges[k].expression) && Normal(edges[k].expression) == r
  }

  lemma RulesAppended(done: seq<Edge>, e: Edge, r: string)
    ensures Rules(done + [e], r) <==> Rules(done, r) || (!Blank(e.expression) && Normal(e.expression) == r)
  {
    var more := done + [e];
    assert more[|done|] == e;
    if Rules(done, r) {
      var k :| 0 <= k < |done| && !Blank(done[k].expression) && Normal(done[k].expression) == r;
      assert more[k] == done[k];
    }
  }

  lemma OtherRule(seen: set<string>, done: seq<Edge>, e: Edge, i: nat)
    requires Seen(seen, done) && (Blank(e.expression) || Normal(e.expression) !in seen) && i < |done|
    ensures !SameRule(done[i], e)
  {
    NormalByWords(done[i].expression, e.expression);
    assert !Blank(done[i].expression) ==> Rules(done, Normal(done[i].expression));
  }

  lemma NewRule(seen: set<string>, done: seq<Edge>, e: Edge)
    requires Seen(seen, done) && (Blank(e.expression) || Normal(e.expression) !in seen)
    ensures Seen(if Blank(e.expression) then seen else seen + {Normal(e.expression)}, done + [e])
  {
    var more := done + [e];
    forall r ensures Rules(more, r) <==> r in seen || (!Blank(e.expression) && Normal(e.expression) == r) {
      RulesAppended(done, e, r);
    }
    forall i, j | 0 <= i < j < |more| ensures !SameRule(more[i], more[j]) {
      if j < |done| { assert !SameRule(done[i], done[j]); } else { OtherRule(seen, done, e, i); }
    }
  }

  lemma RepeatedRule(seen: set<string>, done: seq<Edge>, e: Edge)
    requires Seen(seen, done) && !Blank(e.expression) && Normal(e.expression) in seen
    ensures !AllDiffer(done + [e])
  {
    assert Rules(done, Normal(e.expression));
    var k :| 0 <= k < |done| && !Blank(done[k].expression) && Normal(done[k].expression) == Normal(e.expression);
    NormalByWords(done[k].expression, e.expression);
    var more := done + [e];
    assert more[k] == done[k] && more[|done|] == e && SameRule(more[k], more[|done|]);
  }

  lemma StillRepeated(done: seq<Edge>, rest: seq<Edge>)
    requires !AllDiffer(done)
    ensures !AllDiffer(done + rest)
  {
    var i, j :| 0 <= i < j < |done| && SameRule(done[i], done[j]);
    var more := done + rest;
    assert SameRule(more[i], more[j]);
  }

  /** Looks at one more rule, remembering its normal form. */
  method AddRule(e: Edge, before: set<string>, ghost done: seq<Edge>) returns (ok: bool, seen: set<string>)
    requires Seen(before, done)
    ensures if ok then Seen(seen, done + [e]) else !AllDiffer(done + [e])
  {
    seen := before;
    if Blank(e.expression) {
      NewRule(before, done, e);
      return true, seen;
    }
    var rule := Normal(e.expression);
    if rule in seen {
      RepeatedRule(before, done, e);
      return false, seen;
    }
    NewRule(before, done, e);
    return true, seen + {rule};
  }

  method AddRules(edges: seq<Edge>, before: set<string>, ghost done: seq<Edge>) returns (ok: bool, seen: set<string>)
    requires Seen(before, done)
    ensures if ok then Seen(seen, done + edges) else !AllDiffer(done + edges)
  {
    seen := before;
    assert done + edges[..0] == done;
    for k := 0 to |edges|
      invariant Seen(seen, done + edges[..k])
    {
      OneFurther(done, edges, k);
      ok, seen := AddRule(edges[k], seen, done + edges[..k]);
      if !ok {
        return;
      }
    }
    assert edges[..|edges|] == edges;
    ok := true;
  }

  lemma OneFurther(done: seq<Edge>, edges: seq<Edge>, k: nat)
    requires k < |edges|
    ensures done + edges[..k + 1] == done + edges[..k] + [edges[k]]
    ensures !AllDiffer(done + edges[..k] + [edges[k]]) ==> !AllDiffer(done + edges)
  {
    var upTo := done + edges[..k] + [edges[k]];
    assert done + edges[..k + 1] == upTo && upTo + edges[k + 1..] == done + edges;
    if !AllDiffer(upTo) { StillRepeated(upTo, edges[k + 1..]); }
  }

  lemma BranchesStep(ctx: Context, edges: seq<Edge>, k: nat)
    requires k < |edges|
    ensures BranchEdges(ctx, edges[..k + 1]) ==
      BranchEdges(ctx, edges[..k]) + if KindOf(ctx, edges[k].target).Condition? then OutEdges(ctx, edges[k].target) else []
  {
    assert edges[..k + 1][..k] == edges[..k];
  }

  lemma {:induction false} BranchesRepeated(ctx: Context, edges: seq<Edge>, k: nat)
    requires k <= |edges| && !AllDiffer(BranchEdges(ctx, edges[..k]))
    ensures !AllDiffer(BranchEdges(ctx, edges))
    decreases |edges| - k
  {
    if k == |edges| {
      assert edges[..k] == edges;
    } else {
      BranchesStep(ctx, edges, k);
      StillRepeated(BranchEdges(ctx, edges[..k]),
                    if KindOf(ctx, edges[k].target).Condition? then OutEdges(ctx, edges[k].target) else []);
      BranchesRepeated(ctx, edges, k + 1);
    }
  }

  /** The rules behind a selective gateway, over all its condition nodes. */
  method CheckBranches(ctx: Context, edges: seq<Edge>) returns (ok: bool)
    ensures ok <==> AllDiffer(BranchEdges(ctx, edges))
  {
    var seen: set<string> := {};
    for k := 0 to |edges|
      invariant Seen(seen, BranchEdges(ctx, edges[..k]))
    {
      BranchesStep(ctx, edges, k);
      if KindOf(ctx, edges[k].target).Condition? {
        ok, seen := AddRules(OutEdges(ctx, edges[k].target), seen, BranchEdges(ctx, edges[..k]));
        if !ok {
          BranchesRepeated(ctx, edges, k + 1);
          return;
        }
      } else {
        assert BranchEdges(ctx, edges[..k]) + [] == BranchEdges(ctx, edges[..k]);
      }
    }
    assert edges[..|edges|] == edges;
    ok := true;
  }

  method CheckEdges(edges: seq<Edge>) returns (ok: bool)
    ensures ok <==> AllDiffer(edges)
  {
    assert [] + edges == edges;
    var seen;
    ok, seen := AddRules(edges, {}, []);
  }

  lemma ChoicesByKind(ctx: Context, id: string)
    ensures KindOf(ctx, id).Selective? ==> Choices(ctx, id) == BranchEdges(ctx, OutEdges(ctx, id))
    ensures KindOf(ctx, id).Condition? && |OutEdges(ctx, id)| > 1 ==> Choices(ctx, id) == OutEdges(ctx, id)
    ensures !KindOf(ctx, id).Selective? && !(KindOf(ctx, id).Condition? && |OutEdges(ctx, id)| > 1) ==> Choices(ctx, id) == []
  {
  }

  method CheckChoices(ctx: Context, id: string) returns (ok: bool)
    ensures ok <==> RulesDiffer(ctx, id)
  {
    ChoicesByKind(ctx, id);
    var edges := OutEdges(ctx, id);
    if KindOf(ctx, id).Selective? {
      ok := CheckBranches(ctx, edges);
    } else if KindOf(ctx, id).Condition? && |edges| > 1 {
      ok := CheckEdges(edges);
    } else {
      ok := true;
    }
  }

  /** No two rules of one choice say the same. */
  method ValidateDuplicateExpressions(ctx: Context, keys: seq<string>) returns (ok: bool)
    requires forall v :: v in keys <==> v in ctx.nodes
    ensures ok <==> AllRulesDiffer(ctx)
  {
    for k := 0 to |keys|
      invariant forall j {:trigger RulesDiffer(ctx, keys[j])} | 0 <= j < k :: RulesDiffer(ctx, keys[j])
    {
      ok := CheckChoices(ctx, keys[k]);
      if !ok {
        RuleRepeatedAt(ctx, keys, k);
        return;
      }
    }
    ListedDiffer(ctx, keys);
    return true;
  }

  lemma RuleRepeatedAt(ctx: Context, keys: seq<string>, k: nat)
    requires (forall v :: v in keys <==> v in ctx.nodes) && k < |keys| && !RulesDiffer(ctx, keys[k])
    ensures !AllRulesDiffer(ctx)
  {
    assert keys[k] in ctx.nodes;
  }

  lemma ListedDiffer(ctx: Context, keys: seq<string>)
    requires forall v :: v in keys <==> v in ctx.nodes
    requires forall j {:trigger RulesDiffer(ctx, keys[j])} | 0 <= j < |keys| :: RulesDiffer(ctx, keys[j])
    ensures AllRulesDiffer(ctx)
  {
    forall id | id in ctx.nodes ensures RulesDiffer(ctx, id) {
      var j :| 0 <= j < |keys| && keys[j] == id;
      assert RulesDiffer(ctx, keys[j]);
    }
  }

  // ---------------------------------------------------------------- what the two rules give together

  lemma {:induction false} BranchMember(ctx: Context, edges: seq<Edge>, e: Edge)
    requires e in BranchEdges(ctx, edges)
    ensures exists k :: 0 <= k < |edges| && KindOf(ctx, edges[k].target).Condition? && e in OutEdges(ctx, edges[k].target)
  {
    var rest, last := edges[..|edges| - 1], edges[|edges| - 1];
    if e in BranchEdges(ctx, rest) {
      BranchMember(ctx, rest, e);
      var k :| 0 <= k < |rest| && KindOf(ctx, rest[k].target).Condition? && e in OutEdges(ctx, rest[k].target);
      assert edges[k] == rest[k];
    } else {
      assert edges[|edges| - 1] == last;
    }
  }

  lemma BranchIsWritten(ctx: Context, id: string, e: Edge)
    requires WellBuilt(ctx) && Endpoints(ctx) && AllRulesGiven(ctx) && KindOf(ctx, id).Selective?
    requires e in BranchEdges(ctx, OutEdges(ctx, id))
    ensures !Blank(e.expression)
  {
    BranchMember(ctx, OutEdges(ctx, id), e);
    var k :| 0 <= k < |OutEdges(ctx, id)| && KindOf(ctx, OutEdges(ctx, id)[k].target).Condition?
      && e in OutEdges(ctx, OutEdges(ctx, id)[k].target);
    var c := OutEdges(ctx, id)[k].target;
    assert Targets(ctx, id)[k] == c;
    SourceIsNode(ctx, id, c);
    assert Balanced(ctx, id, c);
    assert id in Prevs(ctx, c);
    assert RulesGiven(ctx, c) && SelectiveBranch(ctx, c);
    var j :| 0 <= j < |OutEdges(ctx, c)| && OutEdges(ctx, c)[j] == e;
  }

  /** Edge `k` out of the condition that edge `i` out of `id` leads to. */
  ghost predicate IsBranch(ctx: Context, id: string, i: nat, k: nat) {
    i < |OutEdges(ctx, id)| && BranchIn(ctx, OutEdges(ctx, id), i, k)
  }

  ghost predicate BranchIn(ctx: Context, edges: seq<Edge>, i: nat, k: nat)
    requires i < |edges|
  {
    KindOf(ctx, edges[i].target) == Condition && k < |OutEdges(ctx, edges[i].target)|
  }

  function BranchEdge(ctx: Context, edges: seq<Edge>, i: nat, k: nat): Edge
    requires i < |edges| && k < |OutEdges(ctx, edges[i].target)|
  {
    OutEdges(ctx, edges[i].target)[k]
  }

  lemma {:induction false} BranchAt(ctx: Context, edges: seq<Edge>, i: nat, k: nat) returns (p: nat)
    requires i < |edges| && BranchIn(ctx, edges, i, k)
    ensures p < |BranchEdges(ctx, edges)| && BranchEdges(ctx, edges)[p] == BranchEdge(ctx, edges, i, k)
    ensures i == |edges| - 1 ==> p == |BranchEdges(ctx, edges[..|edges| - 1])| + k
  {
    var rest := edges[..|edges| - 1];
    if i < |rest| { p := BranchAt(ctx, rest, i, k); } else { p := |BranchEdges(ctx, rest)| + k; }
  }

  lemma {:induction false} BranchesInOrder(ctx: Context, edges: seq<Edge>, i: nat, k: nat, j: nat, l: nat) returns (p: nat, q: nat)
    requires i < |edges| && BranchIn(ctx, edges, i, k) && j < |edges| && BranchIn(ctx, edges, j, l)
    requires i < j || (i == j && k < l)
    ensures p < q < |BranchEdges(ctx, edges)|
    ensures BranchEdges(ctx, edges)[p] == BranchEdge(ctx, edges, i, k) && BranchEdges(ctx, edges)[q] == BranchEdge(ctx, edges, j, l)
  {
    var rest := edges[..|edges| - 1];
    if j < |rest| {
      p, q := BranchesInOrder(ctx, rest, i, k, j, l);
    } else {
      q := |BranchEdges(ctx, rest)| + l;
      if i < j { p := BranchAt(ctx, rest, i, k); } else { p := |BranchEdges(ctx, rest)| + k; }
    }
  }

  /** Rules are written on every branch of a condition with several, and of one behind a selective gateway. */
  lemma RulesAreWritten(ctx: Context, id: string, k: nat)
    requires AllRulesGiven(ctx) && id in ctx.nodes && ctx.nodes[id].kind == Condition && k < |OutEdges(ctx, id)|
    requires |OutEdges(ctx, id)| > 1 || exists s :: s in Prevs(ctx, id) && KindOf(ctx, s) == Selective
    ensures !Blank(OutEdges(ctx, id)[k].expression)
  {
    assert RulesGiven(ctx, id);
    if |OutEdges(ctx, id)| <= 1 {
      var s :| s in Prevs(ctx, id) && KindOf(ctx, s) == Selective;
      var j :| 0 <= j < |Prevs(ctx, id)| && Prevs(ctx, id)[j] == s;
      assert SelectiveBranch(ctx, id);
    }
  }

  /** No two rules of one condition have the same words. */
  lemma ConditionRulesDiffer(ctx: Context, id: string, k: nat, l: nat)
    requires AllRulesGiven(ctx) && AllRulesDiffer(ctx) && id in ctx.nodes && ctx.nodes[id].kind == Condition
    requires k < l < |OutEdges(ctx, id)|
    ensures var edges := OutEdges(ctx, id); Words(Trim(edges[k].expression)) != Words(Trim(edges[l].expression))
  {
    RulesAreWritten(ctx, id, k);
    RulesAreWritten(ctx, id, l);
    assert RulesDiffer(ctx, id) && !SameRule(OutEdges(ctx, id)[k], OutEdges(ctx, id)[l]);
  }

  /** No two rules of all the conditions behind one selective gateway have the same words. */
  lemma SelectiveRulesDiffer(ctx: Context, id: string, i: nat, k: nat, j: nat, l: nat)
    requires WellBuilt(ctx) && Endpoints(ctx) && AllRulesGiven(ctx) && AllRulesDiffer(ctx)
    requires id in ctx.nodes && ctx.nodes[id].kind == Selective
    requires IsBranch(ctx, id, i, k) && IsBranch(ctx, id, j, l) && (i < j || (i == j && k < l))
    ensures var out := OutEdges(ctx, id);
      Words(Trim(OutEdges(ctx, out[i].target)[k].expression)) != Words(Trim(OutEdges(ctx, out[j].target)[l].expression))
  {
    var out := OutEdges(ctx, id);
    var p, q := BranchesInOrder(ctx, out, i, k, j, l);
    var branches := BranchEdges(ctx, out);
    assert branches[p] in branches && branches[q] in branches;
    BranchIsWritten(ctx, id, branches[p]);
    BranchIsWritten(ctx, id, branches[q]);
    assert RulesDiffer(ctx, id) && !SameRule(branches[p], branches[q]);
  }
}
