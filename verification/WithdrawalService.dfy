/** The withdrawal service and its recovery as they run, tied to the steps of the withdrawal protocol. */
module WithdrawalService {
  import opened Prelude
  import opened AutomationModel
  import opened WithdrawalModel
  import opened Transactions
  import opened WithdrawalProtocol
  import opened AutomationDb
  import opened AutomationLaws

  datatype ServiceError =
    | BadParameters | BadReason | Refused(cause: DaoError) | PlanFailed | EngineFailed | ApplyFailed | NotStale

  /** What a node's definition gives its task; a definition that cannot be prepared blocks it. */
  datatype NodeDefinition = NodeDefinition(compensation: string, scheduledAt: int, blocked: bool)

  class Service {
    const db: Database
    var revoked: set<int>
    ghost const origin: Sys
    ghost var sys: Sys
    ghost var trace: seq<Event>

    ghost predicate Valid()
      reads this, db
    {
      && sys.db == db.State() && sys.revoked == revoked
      && sys == Play(origin, trace) && Disciplined(origin, trace)
    }

    constructor (db: Database)
      requires db.State() == EMPTY
      ensures Valid() && this.db == db && sys == INITIAL && trace == []
    {
      this.db := db;
      revoked := {};
      origin, sys, trace := INITIAL, INITIAL, [];
    }

    /** The rows of an instance, in some order. */
    method ListTasks(instance: int) returns (order: seq<nat>, rows: seq<Task>)
      ensures Lists(db.State(), instance, order) && rows == Rows(db.State(), order)
    {
      order, rows := [], [];
      var rest := db.tasks.Keys;
      while rest != {}
        invariant rest <= db.tasks.Keys
        invariant forall k | 0 <= k < |order| :: order[k] in db.tasks && db.tasks[order[k]].instance == instance
        invariant forall t | t in db.tasks && t !in rest && db.tasks[t].instance == instance :: t in order
        invariant |rows| == |order| && forall k | 0 <= k < |rows| :: rows[k] == db.tasks[order[k]]
        decreases rest
      {
        var t :| t in rest;
        rest := rest - {t};
        if db.tasks[t].instance == instance {
          order, rows := order + [t], rows + [db.tasks[t]];
        }
      }
    }

    method FreshId() returns (id: nat)
      ensures id !in db.tasks
    {
      id := if db.tasks == map[] then 0 else MaxOf(db.tasks.Keys) + 1;
    }

    /** Records a protocol step whose effect on the database has just been made. */
    ghost method Record(e: Event)
      requires sys == Play(origin, trace) && Disciplined(origin, trace) && InOwnRound(sys, e)
      modifies this`sys, this`trace
      ensures sys == Next(old(sys), e) && trace == old(trace) + [e]
      ensures sys == Play(origin, trace) && Disciplined(origin, trace)
    {
      PlayOne(origin, trace, e);
      sys := Next(sys, e);
      trace := trace + [e];
    }

    /** The flow of the running call, at the given stage of its own round. */
    ghost predicate InFlow(f: nat, instance: int, stage: Stage)
      reads this
    {
      At(sys, f, stage) && sys.flows[f].instance == instance && sys.flows[f].round == Round(sys, instance)
    }

    method RollBack(ghost f: nat, instance: int)
      requires Valid() && InFlow(f, instance, RollingBack)
      modifies db, this`sys, this`trace
      ensures Valid() && old(trace) <= trace
      ensures db.State() == WithdrawalModel.Rollback(old(db.State()), instance)
    {
      db.Rollback(instance);
      Record(Event.RollBack(f));
    }

    /** Reads the compensation plan off the task rows. */
    method Build(ghost f: nat, instance: int) returns (plan: seq<string>)
      requires Valid() && (InFlow(f, instance, Planning) || InFlow(f, instance, Resuming))
      modifies this`sys, this`trace
      ensures Valid() && old(trace) <= trace && db.State() == old(db.State())
      ensures InFlow(f, instance, if old(At(sys, f, Planning)) then Planned else Applying)
      ensures sys.flows[f].plan == plan && sys.flows[f].created == 0
      ensures IsPlan(db.State(), instance, plan)
    {
      var order, rows := ListTasks(instance);
      plan := CollectTargets(rows);
      forall node ensures node in plan <==> node != "" && Covered(db.State(), instance, node) {
        PlanIsCoverage(db.State(), instance, order, node);
      }
      Record(BuildPlan(f, order));
    }

    /** Creates the task of one target unless the node has one; a definition that fails blocks the task. */
    method EnsureTask(ghost f: nat, instance: int, plan: seq<string>, k: nat, define: string -> NodeDefinition) returns (ok: bool)
      requires Valid() && k < |plan| && plan[k] != "" && instance in db.tickets
      requires InFlow(f, instance, Applying) && sys.flows[f].plan == plan && sys.flows[f].created == k
      modifies db, this`sys, this`trace
      ensures Valid() && old(trace) <= trace
      ensures ok ==> InFlow(f, instance, Applying) && sys.flows[f].plan == plan && sys.flows[f].created == k + 1
      ensures ok <==> NodeTaken(old(db.State()), instance, plan[k]) || !define(plan[k]).blocked
      ensures Supplies(old(db.State()), db.State(), instance, [plan[k]], define)
      ensures NodeTaken(db.State(), instance, plan[k])
    {
      var d := define(plan[k]);
      var id := FreshId();
      CreatedSupplies(db.State(), id, instance, plan[k], define);
      ok := CreateMissing(id, instance, plan[k], d);
      Record(CreateTarget(f, id, d.compensation, d.scheduledAt, d.blocked));
    }

    method CreateMissing(id: nat, instance: int, node: string, d: NodeDefinition) returns (ok: bool)
      requires id !in db.tasks
      modifies db
      ensures db.State() == Missing(old(db.State()), id, instance, node, d)
      ensures ok <==> NodeTaken(old(db.State()), instance, node) || !d.blocked
    {
      ok := true;
      var taken := exists t | t in db.tasks :: db.tasks[t].instance == instance && db.tasks[t].node == node;
      if !taken {
        db.CreateTask(id, instance, node, d.compensation, d.scheduledAt, d.blocked);
        ok := !d.blocked;
      }
    }

    /** Sees to it that every target of the plan has a task. */
    method EnsureTasks(ghost f: nat, instance: int, plan: seq<string>, define: string -> NodeDefinition) returns (ok: bool)
      requires Valid() && InFlow(f, instance, Applying) && sys.flows[f].plan == plan && sys.flows[f].created == 0
      requires instance in db.tickets && forall node | node in plan :: node != ""
      modifies db, this`sys, this`trace
      ensures Valid() && old(trace) <= trace
      ensures ok ==> InFlow(f, instance, Applying) && sys.flows[f].plan == plan && sys.flows[f].created == |plan|
      ensures ok <==> Definable(old(db.State()), instance, plan, define)
      ensures Supplies(old(db.State()), db.State(), instance, plan, define)
      ensures ok ==> forall k | 0 <= k < |plan| :: NodeTaken(db.State(), instance, plan[k])
    {
      ghost var before := db.State();
      var k := 0;
      while k < |plan|
        invariant k <= |plan| && Valid() && old(trace) <= trace
        invariant InFlow(f, instance, Applying) && sys.flows[f].plan == plan && sys.flows[f].created == k
        invariant Ensured(before, db.State(), instance, plan, k, define)
      {
        assert plan[k] in plan;
        ghost var mid := db.State();
        ok := EnsureTask(f, instance, plan, k, define);
        EnsuredNext(before, mid, db.State(), instance, plan, k, define, ok);
        if !ok {
          return;
        }
        k := k + 1;
      }
      assert plan[..k] == plan;
      ok := true;
    }

    /** Creates the missing tasks of the plan, then activates it and tries to finalize the ticket. A ticket that is
        already withdrawn stays so; one that is neither withdrawing nor withdrawn makes the call fail. */
    method ApplyPlan(ghost f: nat, instance: int, plan: seq<string>, define: string -> NodeDefinition, now: int)
      returns (error: Option<ServiceError>)
      requires Valid() && InFlow(f, instance, Applying) && sys.flows[f].plan == plan && sys.flows[f].created == 0
      requires instance in db.tickets && forall node | node in plan :: node != ""
      modifies db, this`sys, this`trace
      ensures Valid() && old(trace) <= trace && (error.None? || error == Some(ApplyFailed))
      ensures error.None? <==>
        (HasStatus(old(db.State()), instance, Withdrawing) || HasStatus(old(db.State()), instance, Withdrawn))
        && Definable(old(db.State()), instance, plan, define)
      ensures error.Some? || !old(db.tickets)[instance].Withdrawing? ==>
        Supplies(old(db.State()), db.State(), instance, plan, define)
      ensures error.None? && old(db.tickets)[instance].Withdrawing? ==>
        Applied(old(db.State()), db.State(), instance, plan, define, now)
      ensures db.tickets == old(db.tickets)
        || (error.None? && old(db.tickets)[instance].Withdrawing? && db.tickets == old(db.tickets)[instance := Withdrawn])
      ensures error.None? ==> forall k | 0 <= k < |plan| :: NodeTaken(db.State(), instance, plan[k])
      ensures error.None? && old(db.tickets)[instance].Withdrawing? ==>
        PlanCarriedOut(db.State(), instance, plan) && Finalized(db.State(), instance)
    {
      ghost var before := db.State();
      var ok := EnsureTasks(f, instance, plan, define);
      if !ok {
        return Some(ApplyFailed);
      }
      ghost var mid := db.State();
      ApplyGives(mid, instance, plan, now);
      error := Activate(f, instance, plan, now);
      if HasStatus(mid, instance, Withdrawing) {
        AppliedBy(before, mid, instance, plan, define, now);
      }
    }

    /** Activates the plan and tries to finalize the ticket. */
    method Activate(ghost f: nat, instance: int, plan: seq<string>, now: int) returns (error: Option<ServiceError>)
      requires Valid() && InFlow(f, instance, Applying) && sys.flows[f].plan == plan && sys.flows[f].created == |plan|
      modifies db, this`sys, this`trace
      ensures Valid() && old(trace) <= trace
      ensures db.State() == AfterApply(old(db.State()), instance, plan, now)
      ensures error == if Appliable(old(db.State()), instance) then None else Some(ApplyFailed)
    {
      var ok := ActivateTargets(f, instance, plan, now);
      if !ok {
        return Some(ApplyFailed);
      }
      FinalizeTicket(f, instance);
      error := None;
    }

    method ActivateTargets(ghost f: nat, instance: int, plan: seq<string>, now: int) returns (ok: bool)
      requires Valid() && InFlow(f, instance, Applying) && sys.flows[f].plan == plan && sys.flows[f].created == |plan|
      modifies db, this`sys, this`trace
      ensures Valid() && old(trace) <= trace
      ensures db.State() == ActivateCompensations(old(db.State()), instance, plan, now).store
      ensures ok <==> Appliable(old(db.State()), instance)
      ensures ok ==> At(sys, f, Finalizing) && sys.flows[f].instance == instance
    {
      var activated := db.ActivateCompensations(instance, plan, now);
      Record(ActivatePlan(f, now));
      ok := activated.Ok?;
    }

    method FinalizeTicket(ghost f: nat, instance: int)
      requires Valid() && At(sys, f, Finalizing) && sys.flows[f].instance == instance
      modifies db, this`sys, this`trace
      ensures Valid() && old(trace) <= trace
      ensures db.State() == WithdrawalModel.TryFinalize(old(db.State()), instance).store
    {
      var finalized := db.TryFinalize(instance);
      Record(Finalize(f));
    }

    /** Withdraws an instance: freeze the ticket, plan, revoke the engine, compensate, finalize. */
    method Revoke(ghost f: nat, instance: int, username: string, reason: string, buildFails: bool, engineFails: bool,
                  define: string -> NodeDefinition, now: int)
      returns (error: Option<ServiceError>)
      requires Valid() && f !in sys.flows
      modifies this, db
      ensures Valid() && old(trace) <= trace
      ensures error == Some(BadParameters) <==> instance <= 0 || username == ""
      ensures instance > 0 && username != "" ==> (error == Some(BadReason) <==> Blank(reason) || |Trim(reason)| > 500)
      ensures instance > 0 && username != "" && !Blank(reason) && |Trim(reason)| <= 500 ==>
        RevokeAnswers(old(db.State()), old(revoked), instance, buildFails, engineFails, define, error)
      ensures RevokeOutcome(old(db.State()), db.State(), old(revoked), revoked, instance, error)
      ensures RevokeWrites(old(db.State()), db.State(), instance, define, now, error)
    {
      if instance <= 0 || username == "" {
        return Some(BadParameters);
      }
      TrimEmpty(reason);
      if Trim(reason) == "" || |Trim(reason)| > 500 {
        return Some(BadReason);
      }
      error := Withdraw(f, instance, buildFails, engineFails, define, now);
    }

    /** Freezes the ticket, unless something forbids it. */
    method Freeze(ghost f: nat, instance: int) returns (r: Result<(), DaoError>)
      requires Valid() && f !in sys.flows
      modifies db, this`sys, this`trace
      ensures Valid() && old(trace) <= trace && Freezes(old(db.State()), instance, db.State(), r)
      ensures r.Ok? ==> InFlow(f, instance, Planning)
    {
      r := db.Prepare(instance);
      Record(PrepareWithdrawal(f, instance));
    }

    /** Gives up for want of a plan: the ticket is rolled back. */
    method Abandon(ghost f: nat, instance: int)
      requires Valid() && InFlow(f, instance, Planning)
      modifies db, this`sys, this`trace
      ensures Valid() && old(trace) <= trace
      ensures db.State() == WithdrawalModel.Rollback(old(db.State()), instance)
    {
      Record(FailPlan(f));
      RollBack(f, instance);
    }

    method Withdraw(ghost f: nat, instance: int, buildFails: bool, engineFails: bool, define: string -> NodeDefinition, now: int)
      returns (error: Option<ServiceError>)
      requires Valid() && f !in sys.flows
      modifies this, db
      ensures Valid() && old(trace) <= trace
      ensures RevokeAnswers(old(db.State()), old(revoked), instance, buildFails, engineFails, define, error)
      ensures RevokeOutcome(old(db.State()), db.State(), old(revoked), revoked, instance, error)
      ensures RevokeWrites(old(db.State()), db.State(), instance, define, now, error)
    {
      ghost var before := db.State();
      var prepared := Freeze(f, instance);
      if prepared.Err? {
        assert Forbids(before, instance, prepared.error);
        return Some(Refused(prepared.error));
      }
      ghost var frozen := db.State();
      if buildFails {
        Abandon(f, instance);
        RolledBack(before, frozen, instance);
        return Some(PlanFailed);
      }
      var plan := Build(f, instance);
      UnmarkingKeepsTargets(before, frozen, instance, plan, define);
      error := Commit(f, instance, plan, engineFails, define, now);
      Committed(before, frozen, db.State(), instance, plan, define, now, error, old(revoked), revoked);
    }

    /** Until the engine is revoked every failure rolls the ticket back; afterwards nothing does. */
    method Commit(ghost f: nat, instance: int, plan: seq<string>, engineFails: bool, define: string -> NodeDefinition, now: int)
      returns (error: Option<ServiceError>)
      requires Valid() && InFlow(f, instance, Planned) && sys.flows[f].plan == plan && sys.flows[f].created == 0
      requires HasStatus(db.State(), instance, Withdrawing) && forall node | node in plan :: node != ""
      modifies this, db
      ensures Valid() && old(trace) <= trace && (error.None? || error == Some(EngineFailed) || error == Some(ApplyFailed))
      ensures error == Some(EngineFailed) <==> engineFails || instance in old(revoked)
      ensures error == Some(ApplyFailed) <==>
        !engineFails && instance !in old(revoked) && !Definable(old(db.State()), instance, plan, define)
      ensures error == Some(ApplyFailed) ==> Supplies(old(db.State()), db.State(), instance, plan, define)
      ensures error.None? ==> Applied(old(db.State()), db.State(), instance, plan, define, now)
      ensures error == Some(EngineFailed) ==>
        revoked == old(revoked) && db.State() == WithdrawalModel.Rollback(old(db.State()), instance)
      ensures error != Some(EngineFailed) ==> revoked == old(revoked) + {instance}
      ensures error != Some(EngineFailed) ==>
        HasStatus(db.State(), instance, Withdrawing) || (error.None? && HasStatus(db.State(), instance, Withdrawn))
      ensures error.None? ==> PlanCarriedOut(db.State(), instance, plan) && Finalized(db.State(), instance)
    {
      Record(RevokeEngine(f, engineFails));
      if engineFails || instance in revoked {
        RollBack(f, instance);
        return Some(EngineFailed);
      }
      revoked := revoked + {instance};
      error := ApplyPlan(f, instance, plan, define, now);
    }

    /** Recovery of a withdrawal that stopped after the engine was revoked: plan again, apply, finalize. */
    method Resume(ghost f: nat, instance: int, buildFails: bool, define: string -> NodeDefinition, now: int)
      returns (error: Option<ServiceError>)
      requires Valid() && f !in sys.flows
      modifies this, db
      ensures Valid() && old(trace) <= trace && revoked == old(revoked)
      ensures error == Some(NotStale) <==> !(instance in revoked && HasStatus(old(db.State()), instance, Withdrawing))
      ensures error == Some(PlanFailed) <==> error != Some(NotStale) && buildFails
      ensures error == Some(ApplyFailed) <==>
        error != Some(NotStale) && !buildFails && exists node :: Unpreparable(old(db.State()), instance, node, define)
      ensures error.Some? ==> error.value.NotStale? || error.value.PlanFailed? || error.value.ApplyFailed?
      ensures error == Some(NotStale) || error == Some(PlanFailed) ==> db.State() == old(db.State())
      ensures error == Some(ApplyFailed) || error == None ==>
        ReplayWrites(old(db.State()), db.State(), instance, define, now, error)
    {
      if instance !in revoked || instance !in db.tickets || !db.tickets[instance].Withdrawing? {
        return Some(NotStale);
      }
      Record(Recover(f, instance));
      if buildFails {
        Record(FailPlan(f));
        return Some(PlanFailed);
      }
      error := Replay(f, instance, define, now);
    }

    /** Plans and applies. */
    method Replay(ghost f: nat, instance: int, define: string -> NodeDefinition, now: int) returns (error: Option<ServiceError>)
      requires Valid() && InFlow(f, instance, Resuming) && HasStatus(db.State(), instance, Withdrawing)
      modifies db, this`sys, this`trace
      ensures Valid() && old(trace) <= trace
      ensures error == if exists node :: Unpreparable(old(db.State()), instance, node, define) then Some(ApplyFailed) else None
      ensures ReplayWrites(old(db.State()), db.State(), instance, define, now, error)
    {
      ghost var before := db.State();
      var plan := Build(f, instance);
      PlanDefinable(before, instance, plan, define);
      error := ApplyPlan(f, instance, plan, define, now);
      if error.None? {
        PlanProvides(before, db.State(), instance, plan);
      }
    }
  }

  /** What a replay leaves: the missing tasks up to one that cannot be prepared, or the applied plan. */
  ghost predicate ReplayWrites(a: Store, b: Store, instance: int, define: string -> NodeDefinition, now: int,
                               error: Option<ServiceError>)
  {
    exists plan :: IsPlan(a, instance, plan) &&
      if error.Some? then Supplies(a, b, instance, plan, define)
      else Applied(a, b, instance, plan, define, now) && ProvidedFor(a, b, instance) && Finalized(b, instance)
  }

  /** A node that some succeeded task of the instance names, without a task, and whose definition cannot be prepared. */
  ghost predicate Unpreparable(s: Store, instance: int, node: string, define: string -> NodeDefinition) {
    node != "" && Covered(s, instance, node) && !NodeTaken(s, instance, node) && define(node).blocked
  }

  ghost predicate Definable(s: Store, instance: int, plan: seq<string>, define: string -> NodeDefinition) {
    forall k | 0 <= k < |plan| :: NodeTaken(s, instance, plan[k]) || !define(plan[k]).blocked
  }

  /** The nodes named by succeeded tasks, each once. */
  ghost predicate IsPlan(s: Store, instance: int, plan: seq<string>) {
    Distinct(plan) && forall node :: node in plan <==> node != "" && Covered(s, instance, node)
  }

  lemma PlanDefinable(s: Store, instance: int, plan: seq<string>, define: string -> NodeDefinition)
    requires IsPlan(s, instance, plan)
    ensures Definable(s, instance, plan, define) <==> forall node :: !Unpreparable(s, instance, node, define)
  {
    forall k | 0 <= k < |plan| && (forall node :: !Unpreparable(s, instance, node, define))
      ensures NodeTaken(s, instance, plan[k]) || !define(plan[k]).blocked
    {
      assert plan[k] in plan;
      assert !Unpreparable(s, instance, plan[k], define);
    }
    forall node ensures Definable(s, instance, plan, define) ==> !Unpreparable(s, instance, node, define) {
      if node in plan {
        var k :| 0 <= k < |plan| && plan[k] == node;
      }
    }
  }

  /** A new task as its node's definition gives it. */
  predicate MadeFrom(task: Task, instance: int, d: NodeDefinition) {
    && task.instance == instance && task.compensation == d.compensation
    && task.kind == Process && task.current == 0 && task.advancedAt == 0
    && task.status == (if d.blocked then TaskStatus.Blocked else TaskStatus.Waiting)
    && task.scheduledAt == (if d.blocked then 0 else d.scheduledAt) && task.originalScheduledAt == task.scheduledAt
  }

  /** `b` has all that `a` has, and besides only new tasks of nodes of the plan that had none, as they are defined. */
  ghost predicate Supplies(a: Store, b: Store, instance: int, plan: seq<string>, define: string -> NodeDefinition) {
    && b == a.(tasks := b.tasks)
    && (forall t | t in a.tasks :: t in b.tasks && b.tasks[t] == a.tasks[t])
    && (forall t | t in b.tasks && t !in a.tasks :: MadeFrom(b.tasks[t], instance, define(b.tasks[t].node)))
    && (forall t | t in b.tasks && t !in a.tasks :: b.tasks[t].node in plan && !NodeTaken(a, instance, b.tasks[t].node))
  }

  function Missing(s: Store, id: nat, instance: int, node: string, d: NodeDefinition): Store {
    AutomationModel.CreateTask(s, id, instance, node, d.compensation, d.scheduledAt, d.blocked)
  }

  lemma CreatedSupplies(s: Store, id: nat, instance: int, node: string, define: string -> NodeDefinition)
    requires id !in s.tasks
    ensures Supplies(s, Missing(s, id, instance, node, define(node)), instance, [node], define)
    ensures NodeTaken(Missing(s, id, instance, node, define(node)), instance, node)
  {
    var d := define(node);
    CreateLaw(s, id, instance, node, d.compensation, d.scheduledAt, d.blocked);
    var s' := Missing(s, id, instance, node, d);
    if !NodeTaken(s, instance, node) { assert s'.tasks[id].node == node; }
  }

  lemma SuppliesJoin(a: Store, b: Store, c: Store, instance: int, p: seq<string>, q: seq<string>, define: string -> NodeDefinition)
    requires Supplies(a, b, instance, p, define) && Supplies(b, c, instance, q, define)
    ensures Supplies(a, c, instance, p + q, define)
  {
    TakenStays(a, b, instance);
  }

  /** The first `k` targets have tasks now; those that had none before could be prepared. */
  ghost predicate Ensured(a: Store, b: Store, instance: int, plan: seq<string>, k: nat, define: string -> NodeDefinition)
    requires k <= |plan|
  {
    && Supplies(a, b, instance, plan[..k], define) && (forall j | 0 <= j < k :: NodeTaken(b, instance, plan[j]))
    && Definable(a, instance, plan[..k], define)
  }

  lemma EnsuredNext(a: Store, b: Store, c: Store, instance: int, plan: seq<string>, k: nat, define: string -> NodeDefinition, ok: bool)
    requires k < |plan| && Ensured(a, b, instance, plan, k, define) && Supplies(b, c, instance, [plan[k]], define)
    requires NodeTaken(c, instance, plan[k]) && (ok <==> NodeTaken(b, instance, plan[k]) || !define(plan[k]).blocked)
    ensures ok ==> Ensured(a, c, instance, plan, k + 1, define)
    ensures !ok ==> !Definable(a, instance, plan, define)
    ensures Supplies(a, c, instance, plan, define)
  {
    SuppliesJoin(a, b, c, instance, plan[..k], [plan[k]], define);
    assert plan[..k + 1] == plan[..k] + [plan[k]];
    TakenStays(a, b, instance);
    TakenStays(b, c, instance);
    if NodeTaken(b, instance, plan[k]) { TakenDefinable(a, b, instance, plan, k, define); }
    if NodeTaken(a, instance, plan[k]) { assert NodeTaken(b, instance, plan[k]); }
  }

  lemma TakenDefinable(a: Store, b: Store, instance: int, plan: seq<string>, k: nat, define: string -> NodeDefinition)
    requires k < |plan| && Ensured(a, b, instance, plan, k, define) && NodeTaken(b, instance, plan[k])
    ensures NodeTaken(a, instance, plan[k]) || !define(plan[k]).blocked
  {
    var t :| t in b.tasks && b.tasks[t].instance == instance && b.tasks[t].node == plan[k];
    if t !in a.tasks {
      var j :| 0 <= j < k && plan[..k][j] == plan[k];
      assert NodeTaken(a, instance, plan[..k][j]) || !define(plan[..k][j]).blocked;
    }
  }

  /** The missing tasks are created, the plan is activated over them, and the ticket is withdrawn if nothing is left to do. */
  ghost predicate Applied(a: Store, b: Store, instance: int, plan: seq<string>, define: string -> NodeDefinition, now: int) {
    exists m, n :: AppliedVia(a, m, n, b, instance, plan, define, now)
  }

  ghost predicate AppliedVia(a: Store, m: Store, n: Store, b: Store, instance: int, plan: seq<string>,
                             define: string -> NodeDefinition, now: int)
  {
    && Supplies(a, m, instance, plan, define) && (forall node | node in plan :: NodeTaken(m, instance, node))
    && Activates(m, instance, plan, now, n, Ok(())) && exists done :: AutomationLaws.Finalizes(n, instance, b, Ok(done))
  }

  lemma AppliedBy(a: Store, m: Store, instance: int, plan: seq<string>, define: string -> NodeDefinition, now: int)
    requires Supplies(a, m, instance, plan, define) && forall k | 0 <= k < |plan| :: NodeTaken(m, instance, plan[k])
    requires HasStatus(m, instance, Withdrawing)
    ensures Applied(a, AfterApply(m, instance, plan, now), instance, plan, define, now)
  {
    var n := ActivateCompensations(m, instance, plan, now).store;
    var finalized := WithdrawalModel.TryFinalize(n, instance);
    ActivateLaw(m, instance, plan, now);
    FinalizeLaw(n, instance);
    assert AutomationLaws.Finalizes(n, instance, finalized.store, Ok(finalized.result.value));
    assert AppliedVia(a, m, n, finalized.store, instance, plan, define, now);
  }

  predicate Appliable(s: Store, instance: int) {
    HasStatus(s, instance, Withdrawing) || HasStatus(s, instance, Withdrawn)
  }

  function AfterApply(s: Store, instance: int, plan: seq<string>, now: int): Store {
    var activated := ActivateCompensations(s, instance, plan, now);
    if activated.result.Err? then s else WithdrawalModel.TryFinalize(activated.store, instance).store
  }

  lemma ApplyGives(s: Store, instance: int, plan: seq<string>, now: int)
    requires instance in s.tickets && forall k | 0 <= k < |plan| :: NodeTaken(s, instance, plan[k])
    ensures var s' := AfterApply(s, instance, plan, now);
      && (s'.tickets == s.tickets
          || (HasStatus(s, instance, Withdrawing) && s'.tickets == s.tickets[instance := Withdrawn]))
      && (forall k | 0 <= k < |plan| :: NodeTaken(s', instance, plan[k]))
      && (HasStatus(s, instance, Withdrawing) ==> PlanCarriedOut(s', instance, plan) && Finalized(s', instance))
  {
    if HasStatus(s, instance, Withdrawing) {
      CarriedOut(s, instance, plan, now);
      FinalizeDecides(ActivateCompensations(s, instance, plan, now).store, instance);
      assert forall k | 0 <= k < |plan| :: plan[k] in plan;
    }
  }

  /** Every node that a succeeded task names has a task, and all its tasks are compensations. */
  ghost predicate ProvidedFor(a: Store, b: Store, instance: int) {
    forall node {:trigger Covered(a, instance, node)} | node != "" && Covered(a, instance, node) ::
      Compensated(b, instance, node)
  }

  ghost predicate Compensated(s: Store, instance: int, node: string) {
    NodeTaken(s, instance, node)
    && forall t | t in s.tasks && s.tasks[t].instance == instance && s.tasks[t].node == node :: s.tasks[t].kind.Compensation?
  }

  /** The ticket is withdrawn exactly if every compensation has succeeded. */
  ghost predicate Finalized(s: Store, instance: int) {
    HasStatus(s, instance, Withdrawn) <==> forall t | t in s.tasks :: !Unfinished(s, instance, t)
  }

  lemma FinalizeDecides(s: Store, instance: int)
    requires HasStatus(s, instance, Withdrawing)
    ensures Finalized(WithdrawalModel.TryFinalize(s, instance).store, instance)
  {
    var s' := WithdrawalModel.TryFinalize(s, instance).store;
    assert s'.tasks == s.tasks;
    forall t | t in s.tasks ensures Unfinished(s', instance, t) <==> Unfinished(s, instance, t) {}
  }

  lemma PlanProvides(a: Store, b: Store, instance: int, plan: seq<string>)
    requires forall node :: node in plan <==> node != "" && Covered(a, instance, node)
    requires PlanCarriedOut(b, instance, plan)
    ensures ProvidedFor(a, b, instance)
  {
    forall node | node != "" && Covered(a, instance, node) ensures Compensated(b, instance, node) {
      assert node in plan;
    }
  }

  lemma TakenStays(s: Store, s': Store, instance: int)
    requires forall t | t in s.tasks :: t in s'.tasks && s'.tasks[t] == s.tasks[t]
    ensures forall node | NodeTaken(s, instance, node) :: NodeTaken(s', instance, node)
  {
    forall node | NodeTaken(s, instance, node) ensures NodeTaken(s', instance, node) {
      var t :| t in s.tasks && s.tasks[t].instance == instance && s.tasks[t].node == node;
      assert s'.tasks[t].node == node;
    }
  }

  /** Either the engine was left alone, the call failed and no ticket changed status; or the engine was
      revoked, the ticket stays withdrawing until it is withdrawn, and success means that every node named
      by a task that had succeeded is provided for and finalisation was tried. */
  ghost predicate RevokeOutcome(a: Store, b: Store, before: set<int>, after: set<int>, instance: int,
                                error: Option<ServiceError>) {
    if after == before then error.Some? && b.tickets == a.tickets
    else
      && after == before + {instance} && HasStatus(a, instance, Processing)
      && (HasStatus(b, instance, Withdrawing) || (error.None? && HasStatus(b, instance, Withdrawn)))
      && (error.None? ==> ProvidedFor(a, b, instance) && Finalized(b, instance))
  }

  /** When a withdrawal is refused or fails, and at which step; else it succeeds. */
  ghost predicate RevokeAnswers(s: Store, revoked: set<int>, instance: int, buildFails: bool, engineFails: bool,
                                define: string -> NodeDefinition, error: Option<ServiceError>)
  {
    if !Freezable(s, instance) then exists e :: Forbids(s, instance, e) && error == Some(Refused(e))
    else if buildFails then error == Some(PlanFailed)
    else if engineFails || instance in revoked then error == Some(EngineFailed)
    else if exists node :: Unpreparable(s, instance, node, define) then error == Some(ApplyFailed)
    else error == None
  }

  /** What each outcome leaves in the tables: nothing new when refused; the marks taken off when rolled back; the missing
      tasks up to one that cannot be prepared; or the applied plan. */
  ghost predicate RevokeWrites(a: Store, b: Store, instance: int, define: string -> NodeDefinition, now: int,
                               error: Option<ServiceError>)
  {
    match error
    case None => exists m, plan :: WithdrawnBy(a, m, instance, plan) && Applied(m, b, instance, plan, define, now)
    case Some(e) =>
      if e.ApplyFailed? then
        exists m, plan :: WithdrawnBy(a, m, instance, plan) && Supplies(m, b, instance, plan, define)
      else if e.PlanFailed? || e.EngineFailed? then Unmarks(a, b, instance) && b.tickets == a.tickets
      else b == a
  }

  /** The frozen state and the plan read off it. */
  ghost predicate WithdrawnBy(a: Store, m: Store, instance: int, plan: seq<string>) {
    Unmarks(a, m, instance) && HasStatus(m, instance, Withdrawing) && IsPlan(a, instance, plan)
  }

  lemma UnmarkingKeepsTargets(a: Store, m: Store, instance: int, plan: seq<string>, define: string -> NodeDefinition)
    requires Unmarks(a, m, instance) && IsPlan(m, instance, plan)
    ensures IsPlan(a, instance, plan)
    ensures Definable(m, instance, plan, define) <==> forall node :: !Unpreparable(a, instance, node, define)
  {
    forall node
      ensures Covered(a, instance, node) <==> Covered(m, instance, node)
      ensures NodeTaken(a, instance, node) <==> NodeTaken(m, instance, node)
    {
      UnmarkingKeepsNode(a, m, instance, node);
    }
    PlanDefinable(a, instance, plan, define);
  }

  lemma UnmarkingKeepsNode(a: Store, m: Store, instance: int, node: string)
    requires Unmarks(a, m, instance)
    ensures Covered(a, instance, node) <==> Covered(m, instance, node)
    ensures NodeTaken(a, instance, node) <==> NodeTaken(m, instance, node)
  {
    forall t | t in a.tasks
      ensures Compensates(a, t, instance, node) <==> Compensates(m, t, instance, node)
      ensures m.tasks[t].instance == a.tasks[t].instance && m.tasks[t].node == a.tasks[t].node
    {
    }
  }

  lemma RolledBack(a: Store, m: Store, instance: int)
    requires HasStatus(a, instance, Processing) && Unmarks(a, m, instance) && HasStatus(m, instance, Withdrawing)
    ensures var b := WithdrawalModel.Rollback(m, instance); Unmarks(a, b, instance) && b.tickets == a.tickets
  {
    var b := WithdrawalModel.Rollback(m, instance);
    assert b.tickets.Keys == a.tickets.Keys;
    forall i | i in a.tickets ensures b.tickets[i] == a.tickets[i] {}
  }

  lemma Committed(a: Store, m: Store, b: Store, instance: int, plan: seq<string>, define: string -> NodeDefinition, now: int,
                  error: Option<ServiceError>, before: set<int>, after: set<int>)
    requires HasStatus(a, instance, Processing) && WithdrawnBy(a, m, instance, plan)
    requires error == Some(EngineFailed) ==> after == before && b == WithdrawalModel.Rollback(m, instance)
    requires error != Some(EngineFailed) ==> instance !in before && after == before + {instance}
    requires error != Some(EngineFailed) ==>
      HasStatus(b, instance, Withdrawing) || (error.None? && HasStatus(b, instance, Withdrawn))
    requires error.None? ==> PlanCarriedOut(b, instance, plan) && Finalized(b, instance)
    requires error.None? || error == Some(EngineFailed) || error == Some(ApplyFailed)
    requires error == Some(ApplyFailed) ==> Supplies(m, b, instance, plan, define)
    requires error.None? ==> Applied(m, b, instance, plan, define, now)
    ensures RevokeOutcome(a, b, before, after, instance, error)
    ensures RevokeWrites(a, b, instance, define, now, error)
  {
    if error == Some(EngineFailed) {
      RolledBack(a, m, instance);
    } else {
      assert after != before by { assert instance in after; }
      if error.None? {
        PlanProvides(a, b, instance, plan);
      }
    }
  }

  /** Every node of the plan has a task of the instance, and all its tasks are compensations. */
  ghost predicate PlanCarriedOut(s: Store, instance: int, plan: seq<string>) {
    && (forall node | node in plan :: NodeTaken(s, instance, node))
    && forall t | t in s.tasks && s.tasks[t].instance == instance && s.tasks[t].node in plan :: s.tasks[t].kind.Compensation?
  }

  lemma CarriedOut(s: Store, instance: int, plan: seq<string>, now: int)
    requires HasStatus(s, instance, Withdrawing) && forall k | 0 <= k < |plan| :: NodeTaken(s, instance, plan[k])
    ensures var activated := ActivateCompensations(s, instance, plan, now).store;
      PlanCarriedOut(WithdrawalModel.TryFinalize(activated, instance).store, instance, plan)
  {
    var activated := ActivateCompensations(s, instance, plan, now).store;
    forall node | node in plan ensures NodeTaken(activated, instance, node) {
      var t :| t in s.tasks && s.tasks[t].instance == instance && s.tasks[t].node == node;
      assert activated.tasks[t].node == node;
    }
  }
}
