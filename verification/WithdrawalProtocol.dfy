/** Withdrawal services, recovery job and attempt traffic as interleaved steps over one database. */
module WithdrawalProtocol {
  import opened Prelude
  import opened AutomationModel
  import opened WithdrawalModel
  import opened Transactions

  // ---------------------------------------------------------------- the compensation plan

  /** The distinct compensation nodes of the succeeded tasks, in listing order. */
  function PlanTargets(rows: seq<Task>): (plan: seq<string>)
    ensures Distinct(plan)
    ensures forall n :: n in plan <==> NamedBySuccess(rows, n)
  {
    if rows == [] then [] else
    var plan := PlanTargets(rows[..|rows| - 1]);
    var row := rows[|rows| - 1];
    assert rows == rows[..|rows| - 1] + [row];
    if row.status.Success? && row.compensation != "" && row.compensation !in plan then
      plan + [row.compensation]
    else
      plan
  }

  predicate NamedBySuccess(rows: seq<Task>, node: string) {
    node != "" && exists k :: 0 <= k < |rows| && rows[k].status.Success? && rows[k].compensation == node
  }

  predicate NamesAt(rows: seq<Task>, k: nat, node: string)
    requires k < |rows|
  {
    rows[k].status == TaskStatus.Success && rows[k].compensation == node
  }

  /** Some succeeded row names `a` before any names `b`. */
  ghost predicate NamedBefore(rows: seq<Task>, a: string, b: string) {
    exists k :: 0 <= k < |rows| && NamesAt(rows, k, a) && forall j | 0 <= j <= k :: !NamesAt(rows, j, b)
  }

  /** The targets stand in the order in which the rows name them first. */
  ghost predicate InListingOrder(rows: seq<Task>, plan: seq<string>) {
    forall i, j | 0 <= i < j < |plan| :: NamedBefore(rows, plan[i], plan[j])
  }

  lemma {:induction false} PlanInOrder(rows: seq<Task>)
    ensures InListingOrder(rows, PlanTargets(rows))
  {
    if rows != [] {
      var rest := rows[..|rows| - 1];
      var before, plan := PlanTargets(rest), PlanTargets(rows);
      PlanInOrder(rest);
      forall i, j | 0 <= i < j < |plan| ensures NamedBefore(rows, plan[i], plan[j]) {
        var a, b := plan[i], plan[j];
        assert plan[..|before|] == before;
        assert a == before[i];
        if j < |before| {
          assert b == before[j];
        } else {
          assert b !in before;
          FirstNamed(rest, a, b);
        }
        LongerNamed(rows, a, b);
      }
    }
  }

  lemma FirstNamed(rows: seq<Task>, a: string, b: string)
    requires NamedBySuccess(rows, a) && b != "" && !NamedBySuccess(rows, b)
    ensures NamedBefore(rows, a, b)
  {
    var k :| 0 <= k < |rows| && rows[k].status.Success? && rows[k].compensation == a;
    assert NamesAt(rows, k, a);
  }

  lemma LongerNamed(rows: seq<Task>, a: string, b: string)
    requires rows != [] && NamedBefore(rows[..|rows| - 1], a, b)
    ensures NamedBefore(rows, a, b)
  {
    var rest := rows[..|rows| - 1];
    var k :| 0 <= k < |rest| && NamesAt(rest, k, a) && forall j | 0 <= j <= k :: !NamesAt(rest, j, b);
    assert NamesAt(rows, k, a);
    forall j | 0 <= j <= k ensures !NamesAt(rows, j, b) { assert !NamesAt(rest, j, b); }
  }

  /** `order` lists the tasks of the instance, each at least once. */
  predicate Lists(s: Store, instance: int, order: seq<nat>) {
    && (forall k | 0 <= k < |order| :: order[k] in s.tasks && s.tasks[order[k]].instance == instance)
    && (forall t | t in s.tasks && s.tasks[t].instance == instance :: t in order)
  }

  function Rows(s: Store, order: seq<nat>): seq<Task>
    requires forall k | 0 <= k < |order| :: order[k] in s.tasks
  {
    seq(|order|, k requires 0 <= k < |order| => s.tasks[order[k]])
  }

  /** The plan holds exactly the nodes that some succeeded task of the instance names. */
  lemma PlanIsCoverage(s: Store, instance: int, order: seq<nat>, node: string)
    requires Lists(s, instance, order)
    ensures node in PlanTargets(Rows(s, order)) <==> node != "" && Covered(s, instance, node)
  {
    var rows := Rows(s, order);
    if node in PlanTargets(rows) {
      var k :| 0 <= k < |rows| && rows[k].status.Success? && rows[k].compensation == node;
      assert Compensates(s, order[k], instance, node);
    }
    if node != "" && Covered(s, instance, node) {
      var source :| source in s.tasks && Compensates(s, source, instance, node);
      var k :| 0 <= k < |order| && order[k] == source;
      assert rows[k].compensation == node;
    }
  }

  // ---------------------------------------------------------------- the system

  /** Where one withdrawal service call, one recovery, or one completion callback stands. */
  datatype Stage = Planning | Planned | RollingBack | Resuming | Applying | Finalizing | Done
  {
    /** Stages a service call passes before the engine is revoked. */
    predicate Early() { Planning? || Planned? || RollingBack? }
    predicate Late() { Resuming? || Applying? || Finalizing? }
  }

  /** `round` counts the withdrawals prepared on the instance when the flow began. */
  datatype Flow = Flow(instance: int, round: nat, stage: Stage, plan: seq<string>, created: nat)

  datatype Sys = Sys(
    db: Store, revoked: set<int>, rounds: map<int, nat>,
    flows: map<nat, Flow>, applied: map<int, set<string>>)

  datatype Event =
    | Local(step: Transaction)
    | PrepareWithdrawal(flow: nat, instance: int)
    | BuildPlan(flow: nat, order: seq<nat>)
    | FailPlan(flow: nat)
    | RevokeEngine(flow: nat, fails: bool)
    | CreateTarget(flow: nat, id: nat, compensation: string, scheduledAt: int, blocked: bool)
    | ActivatePlan(flow: nat, now: int)
    | Finalize(flow: nat)
    | RollBack(flow: nat)
    | Recover(flow: nat, instance: int)
    | RecoverActive(instance: int)
    | ObserveCompletion(flow: nat, task: nat)

  function Round(sys: Sys, instance: int): nat {
    if instance in sys.rounds then sys.rounds[instance] else 0
  }

  function AppliedTo(sys: Sys, instance: int): set<string> {
    if instance in sys.applied then sys.applied[instance] else {}
  }

  /** Transactions that are not part of a withdrawal flow. */
  predicate IsLocal(step: Transaction) {
    !step.Prepare? && !step.Activate? && !step.TryFinalize? && !step.Rollback?
  }

  predicate At(sys: Sys, flow: nat, stage: Stage) {
    flow in sys.flows && sys.flows[flow].stage == stage
  }

  function SetStage(sys: Sys, flow: nat, stage: Stage): Sys
    requires flow in sys.flows
  {
    sys.(flows := sys.flows[flow := sys.flows[flow].(stage := stage)])
  }

  /** One step; a step that is not enabled changes nothing. */
  function Next(sys: Sys, e: Event): Sys {
    match e
    case Local(step) => if IsLocal(step) then sys.(db := Run(sys.db, step)) else sys
    case PrepareWithdrawal(f, i) => StartWithdrawal(sys, f, i)
    case BuildPlan(f, order) =>
      if (At(sys, f, Planning) || At(sys, f, Resuming)) && Lists(sys.db, sys.flows[f].instance, order) then
        var flow := sys.flows[f];
        var plan := PlanTargets(Rows(sys.db, order));
        var stage := if flow.stage.Planning? then Planned else Applying;
        sys.(flows := sys.flows[f := flow.(stage := stage, plan := plan, created := 0)])
      else sys
    case FailPlan(f) =>
      if At(sys, f, Planning) then SetStage(sys, f, RollingBack)
      else if At(sys, f, Resuming) then SetStage(sys, f, Done)
      else sys
    case RevokeEngine(f, fails) => TryRevoke(sys, f, fails)
    case CreateTarget(f, id, compensation, at, blocked) => MakeTarget(sys, f, id, compensation, at, blocked)
    case ActivatePlan(f, now) => ApplyPlan(sys, f, now)
    case Finalize(f) =>
      if At(sys, f, Finalizing) then
        SetStage(sys, f, Done).(db := WithdrawalModel.TryFinalize(sys.db, sys.flows[f].instance).store)
      else sys
    case RollBack(f) =>
      if At(sys, f, RollingBack) then
        SetStage(sys, f, Done).(db := WithdrawalModel.Rollback(sys.db, sys.flows[f].instance))
      else sys
    case Recover(f, i) =>
      if f !in sys.flows && i in sys.revoked && HasStatus(sys.db, i, Withdrawing) then
        sys.(flows := sys.flows[f := Flow(i, Round(sys, i), Resuming, [], 0)])
      else sys
    case RecoverActive(i) =>
      if i !in sys.revoked then sys.(db := WithdrawalModel.Rollback(sys.db, i)) else sys
    case ObserveCompletion(f, t) =>
      if f !in sys.flows && t in sys.db.tasks && sys.db.tasks[t].kind.Compensation? then
        var i := sys.db.tasks[t].instance;
        sys.(flows := sys.flows[f := Flow(i, Round(sys, i), Finalizing, [], 0)])
      else sys
  }

  function StartWithdrawal(sys: Sys, f: nat, i: int): Sys {
    var out := WithdrawalModel.Prepare(sys.db, i);
    if f !in sys.flows && out.result.Ok? then
      var round := Round(sys, i) + 1;
      sys.(db := out.store, rounds := sys.rounds[i := round],
           flows := sys.flows[f := Flow(i, round, Planning, [], 0)])
    else sys
  }

  /** The engine refuses to revoke twice, and its revoke hook refuses a ticket that is not withdrawing. */
  function TryRevoke(sys: Sys, f: nat, fails: bool): Sys {
    if !At(sys, f, Planned) then sys else
    var i := sys.flows[f].instance;
    if fails || i in sys.revoked || !HasStatus(sys.db, i, Withdrawing) then
      SetStage(sys, f, RollingBack)
    else
      SetStage(sys, f, Applying).(revoked := sys.revoked + {i})
  }

  function MakeTarget(sys: Sys, f: nat, id: nat, compensation: string, at: int, blocked: bool): Sys {
    if !At(sys, f, Applying) || sys.flows[f].created >= |sys.flows[f].plan| then sys else
    var flow := sys.flows[f];
    var node := flow.plan[flow.created];
    var next := sys.(flows := sys.flows[f := flow.(created := flow.created + 1)]);
    if NodeTaken(sys.db, flow.instance, node) then next
    else if id in sys.db.tasks then sys
    else
      var db := Run(sys.db, CreateTask(id, flow.instance, node, compensation, at, blocked));
      if blocked then SetStage(sys, f, Done).(db := db) else next.(db := db)
  }

  function ApplyPlan(sys: Sys, f: nat, now: int): Sys {
    if !At(sys, f, Applying) || sys.flows[f].created < |sys.flows[f].plan| then sys else
    var flow := sys.flows[f];
    var i := flow.instance;
    var out := ActivateCompensations(sys.db, i, flow.plan, now);
    if out.result.Err? then SetStage(sys, f, Done)
    else if HasStatus(sys.db, i, Withdrawn) then SetStage(sys, f, Finalizing)
    else
      SetStage(sys, f, Finalizing).(
        db := out.store, applied := sys.applied[i := AppliedTo(sys, i) + Elements(flow.plan)])
  }

  /** A flow revokes the engine, or rolls the ticket back, only in the round it prepared itself. */
  ghost predicate InOwnRound(sys: Sys, e: Event) {
    (e.RevokeEngine? || e.RollBack?) && e.flow in sys.flows ==>
      sys.flows[e.flow].round == Round(sys, sys.flows[e.flow].instance)
  }

  function Play(sys: Sys, events: seq<Event>): Sys
    decreases |events|
  {
    if events == [] then sys else Play(Next(sys, events[0]), events[1..])
  }

  ghost predicate Disciplined(sys: Sys, events: seq<Event>)
    decreases |events|
  {
    events == [] || (InOwnRound(sys, events[0]) && Disciplined(Next(sys, events[0]), events[1..]))
  }

  /** Runs compose, and so does their discipline. */
  lemma {:induction false} PlaySplit(sys: Sys, a: seq<Event>, b: seq<Event>)
    ensures Play(sys, a + b) == Play(Play(sys, a), b)
    ensures Disciplined(sys, a) && Disciplined(Play(sys, a), b) ==> Disciplined(sys, a + b)
    decreases |a|
  {
    if a == [] {
      assert a + b == b;
    } else {
      assert (a + b)[1..] == a[1..] + b;
      PlaySplit(Next(sys, a[0]), a[1..], b);
    }
  }

  lemma PlayOne(sys: Sys, trace: seq<Event>, e: Event)
    ensures Play(sys, trace + [e]) == Next(Play(sys, trace), e)
    ensures Disciplined(sys, trace) && InOwnRound(Play(sys, trace), e) ==> Disciplined(sys, trace + [e])
  {
    assert [e][1..] == [];
    assert Disciplined(Next(Play(sys, trace), e), [e][1..]);
    PlaySplit(sys, trace, [e]);
  }

  const INITIAL := Sys(EMPTY, {}, map[], map[], map[])
}
