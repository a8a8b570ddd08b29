/** What the withdrawal protocol guarantees over every run, and the one schedule that breaks it. */
module WithdrawalTheorems {
  import opened Prelude
  import opened AutomationModel
  import opened WithdrawalModel
  import opened Transactions
  import opened WithdrawalProtocol
  import opened WithdrawalSafety

  ghost predicate Quiet(s: Store, i: int) {
    && (forall t | t in s.tasks :: !ActiveIn(s, i, t))
    && (forall a | a in s.attempts && s.attempts[a].task in s.tasks && s.tasks[s.attempts[a].task].instance == i ::
          s.attempts[a].status.IsTerminal())
  }

  lemma IdleIsQuiet(s: Store, i: int)
    requires Linked(s) && forall t | t in s.tasks :: !ActiveIn(s, i, t)
    ensures Quiet(s, i)
  {
    forall a | a in s.attempts && s.attempts[a].task in s.tasks && s.tasks[s.attempts[a].task].instance == i
      ensures s.attempts[a].status.IsTerminal()
    {
      assert AttemptOk(s, a) && !ActiveIn(s, i, s.attempts[a].task);
    }
  }

  lemma InvMeansQuiet(sys: Sys, i: int)
    requires Inv(sys)
    ensures HasStatus(sys.db, i, Withdrawn) ==> Quiet(sys.db, i)
  {
    if HasStatus(sys.db, i, Withdrawn) {
      assert InstanceOk(sys, i);
      forall t | t in sys.db.tasks ensures !ActiveIn(sys.db, i, t) {}
      IdleIsQuiet(sys.db, i);
    }
  }

  lemma InitialInv()
    ensures Inv(INITIAL)
  {
  }

  /** Once a ticket is withdrawn nothing of its instance executes, no attempt is live, and every
      target of every plan applied to it has succeeded, whatever the interleaving was. */
  lemma WithdrawnIsQuiet(events: seq<Event>, i: int)
    requires Disciplined(INITIAL, events) && HasStatus(Play(INITIAL, events).db, i, Withdrawn)
    ensures var sys := Play(INITIAL, events);
      && Quiet(sys.db, i)
      && i in sys.revoked
      && forall n | n in AppliedTo(sys, i) ::
           exists t :: t in sys.db.tasks && MarkedBy(sys.db, i, n, t) && sys.db.tasks[t].status.Success?
  {
    InitialInv();
    PlayKeepsInv(INITIAL, events);
    var sys := Play(INITIAL, events);
    InvMeansQuiet(sys, i);
    assert InstanceOk(sys, i);
    forall n | n in AppliedTo(sys, i)
      ensures exists t :: t in sys.db.tasks && MarkedBy(sys.db, i, n, t) && sys.db.tasks[t].status.Success?
    {
      assert Marked(sys.db, i, n);
      var t :| t in sys.db.tasks && MarkedBy(sys.db, i, n, t);
      assert sys.db.tasks[t].status.Success?;
    }
  }

  // ---------------------------------------------------------------- nothing restarts afterwards

  /** Every event changes the database by at most one transaction. */
  function TransactionOf(sys: Sys, e: Event): Option<Transaction> {
    match e
    case Local(step) => if IsLocal(step) then Some(step) else None
    case PrepareWithdrawal(f, i) => if f !in sys.flows then Some(Transaction.Prepare(i)) else None
    case CreateTarget(f, id, compensation, at, blocked) =>
      if At(sys, f, Applying) && sys.flows[f].created < |sys.flows[f].plan| && id !in sys.db.tasks then
        var flow := sys.flows[f];
        Some(Transaction.CreateTask(id, flow.instance, flow.plan[flow.created], compensation, at, blocked))
      else None
    case ActivatePlan(f, now) =>
      if At(sys, f, Applying) && sys.flows[f].created >= |sys.flows[f].plan| then
        Some(Transaction.Activate(sys.flows[f].instance, sys.flows[f].plan, now))
      else None
    case Finalize(f) =>
      if At(sys, f, Finalizing) then Some(Transaction.TryFinalize(sys.flows[f].instance)) else None
    case RollBack(f) =>
      if At(sys, f, RollingBack) then Some(Transaction.Rollback(sys.flows[f].instance)) else None
    case RecoverActive(i) => if i !in sys.revoked then Some(Transaction.Rollback(i)) else None
    case _ => None
  }

  lemma EventIsTransaction(sys: Sys, e: Event)
    ensures Next(sys, e).db ==
      match TransactionOf(sys, e) case None => sys.db case Some(step) => Run(sys.db, step)
  {
  }

  lemma {:induction false} PlayKeepsHistory(sys: Sys, events: seq<Event>)
    requires Consistent(sys.db)
    ensures Consistent(Play(sys, events).db) && HistoryKept(sys.db, Play(sys, events).db)
    decreases |events|
  {
    if events == [] {
      RunKeepsHistory(sys.db, []);
    } else {
      var m := Next(sys, events[0]);
      EventIsTransaction(sys, events[0]);
      var steps := match TransactionOf(sys, events[0]) case None => [] case Some(step) => [step];
      if steps != [] { assert RunAll(Run(sys.db, steps[0]), steps[1..]) == m.db; }
      assert m.db == RunAll(sys.db, steps);
      RunKeepsConsistent(sys.db, steps);
      RunKeepsHistory(sys.db, steps);
      PlayKeepsHistory(m, events[1..]);
      HistoryTransitive(sys.db, m.db, Play(sys, events).db);
    }
  }

  lemma HistoryTransitive(s: Store, m: Store, s': Store)
    requires HistoryKept(s, m) && HistoryKept(m, s')
    ensures HistoryKept(s, s')
  {
    forall a | a in s.attempts ensures AttemptKept(s, s', a) { assert AttemptKept(s, m, a) && AttemptKept(m, s', a); }
    forall t | t in s.tasks ensures TaskKept(s, s', t) { assert TaskKept(s, m, t) && TaskKept(m, s', t); }
  }

  /** No transaction opens an attempt on, or moves to execution, a task of a withdrawn instance. */
  lemma StepStaysQuiet(s: Store, step: Transaction, i: int)
    requires Linked(s) && HasStatus(s, i, Withdrawn) && forall t | t in s.tasks :: !ActiveIn(s, i, t)
    ensures var s' := Run(s, step);
      HasStatus(s', i, Withdrawn) && forall t | t in s'.tasks :: !ActiveIn(s', i, t)
  {
    var s' := Run(s, step);
    if IsLocal(step) {
      LocalStepFrame(s, step);
      assert TicketFrame(s, s', i);
      forall t | t in s'.tasks ensures !ActiveIn(s', i, t) {
        if t in s.tasks { assert TaskFrame(s, s', t) && !ActiveIn(s, i, t); }
      }
    } else {
      forall t | t in s'.tasks ensures !ActiveIn(s', i, t) { assert !ActiveIn(s, i, t); }
    }
  }

  /** A withdrawn, quiet instance stays so under any further events, disciplined or not. */
  lemma {:induction false} QuietForever(sys: Sys, events: seq<Event>, i: int)
    requires Consistent(sys.db) && HasStatus(sys.db, i, Withdrawn) && Quiet(sys.db, i)
    ensures var sys' := Play(sys, events); HasStatus(sys'.db, i, Withdrawn) && Quiet(sys'.db, i)
    decreases |events|
  {
    if events != [] {
      var m := Next(sys, events[0]);
      EventIsTransaction(sys, events[0]);
      if TransactionOf(sys, events[0]).Some? {
        StepStaysQuiet(sys.db, TransactionOf(sys, events[0]).value, i);
        StepKeepsConsistent(sys.db, TransactionOf(sys, events[0]).value);
      }
      IdleIsQuiet(m.db, i);
      QuietForever(m, events[1..], i);
    }
  }

  // ---------------------------------------------------------------- plans cover what was executing

  lemma PreparedSource(s: Store, i: int, t: nat) returns (source: nat)
    requires WithdrawalModel.Prepare(s, i).result.Ok? && ActiveIn(WithdrawalModel.Prepare(s, i).store, i, t)
    ensures var s' := WithdrawalModel.Prepare(s, i).store;
      source in s'.tasks && Compensates(s', source, i, s'.tasks[t].node)
  {
    assert ActiveIn(s, i, t) && !Obstructs(s, i, t);
    source :| source in s.tasks && Compensates(s, source, i, s.tasks[t].node);
  }

  lemma CoverageSurvives(s: Store, s': Store, i: int, t: nat, source: nat, order: seq<nat>)
    requires HistoryKept(s, s') && Linked(s') && Lists(s', i, order)
    requires t in s.tasks && Compensates(s, source, i, s.tasks[t].node)
    ensures t in s'.tasks && s'.tasks[t].node in PlanTargets(Rows(s', order))
  {
    assert TaskKept(s, s', source) && TaskKept(s, s', t);
    assert Compensates(s', source, i, s'.tasks[t].node);
    assert TaskOk(s', t);
    PlanIsCoverage(s', i, order, s'.tasks[t].node);
  }

  /** Every task executing when a withdrawal is prepared is a target of any plan built later. */
  lemma ActiveAtPrepareIsTarget(sys: Sys, f: nat, i: int, t: nat, events: seq<Event>, order: seq<nat>)
    requires Consistent(sys.db) && f !in sys.flows && WithdrawalModel.Prepare(sys.db, i).result.Ok?
    requires ActiveIn(Next(sys, PrepareWithdrawal(f, i)).db, i, t)
    requires Lists(Play(Next(sys, PrepareWithdrawal(f, i)), events).db, i, order)
    ensures var sys' := Play(Next(sys, PrepareWithdrawal(f, i)), events);
      t in sys'.db.tasks && sys'.db.tasks[t].node in PlanTargets(Rows(sys'.db, order))
  {
    var m := Next(sys, PrepareWithdrawal(f, i));
    EventIsTransaction(sys, PrepareWithdrawal(f, i));
    StepKeepsConsistent(sys.db, Transaction.Prepare(i));
    PlayKeepsHistory(m, events);
    var source := PreparedSource(sys.db, i, t);
    CoverageSurvives(m.db, Play(m, events).db, i, t, source, order);
  }

  // ---------------------------------------------------------------- replaying an activation

  /** Activating the same plan again at once changes nothing. */
  lemma ActivationIdempotent(s: Store, i: int, plan: seq<string>, now: int, later: int)
    ensures var once := ActivateCompensations(s, i, plan, now).store;
      ActivateCompensations(once, i, plan, later).store == once
  {
  }

  lemma {:induction false} MarkedTaskStays(s: Store, steps: seq<Transaction>, t: nat)
    requires t in s.tasks && s.tasks[t].kind.Compensation?
    requires forall k | 0 <= k < |steps| :: !steps[k].Prepare?
    ensures var s' := RunAll(s, steps);
      t in s'.tasks && s'.tasks[t].kind.Compensation? && s'.tasks[t].node == s.tasks[t].node
      && s'.tasks[t].instance == s.tasks[t].instance
    decreases |steps|
  {
    if steps != [] {
      var m := Run(s, steps[0]);
      if IsLocal(steps[0]) {
        LocalStepFrame(s, steps[0]);
        assert TaskFrame(s, m, t);
      }
      MarkedTaskStays(m, steps[1..], t);
    }
  }

  lemma ActivationOfPlanned(s: Store, i: int, plan: seq<string>, now: int, t: nat)
    requires t in s.tasks && s.tasks[t].instance == i && s.tasks[t].node in plan
    ensures var s' := ActivateCompensations(s, i, plan, now).store;
      && t in s'.tasks && s'.tasks[t].instance == i && s'.tasks[t].node == s.tasks[t].node
      && (HasStatus(s, i, Withdrawing) ==> s'.tasks[t].kind.Compensation?)
      && (s.tasks[t].kind.Compensation? ==> s'.tasks[t] == s.tasks[t])
  {
  }

  /** Replaying a plan after any further steps of the same withdrawal leaves every planned task it
      had already marked exactly as those steps left it: status and both schedules included. */
  lemma ReplayLeavesMarkedTasks(s: Store, i: int, plan: seq<string>, now: int, steps: seq<Transaction>, later: int, t: nat)
    requires HasStatus(s, i, Withdrawing)
    requires t in s.tasks && s.tasks[t].instance == i && s.tasks[t].node in plan
    requires forall k | 0 <= k < |steps| :: !steps[k].Prepare?
    ensures var before := RunAll(ActivateCompensations(s, i, plan, now).store, steps);
      var after := ActivateCompensations(before, i, plan, later).store;
      t in before.tasks && t in after.tasks && after.tasks[t] == before.tasks[t]
  {
    var first := ActivateCompensations(s, i, plan, now).store;
    ActivationOfPlanned(s, i, plan, now, t);
    MarkedTaskStays(first, steps, t);
    ActivationOfPlanned(RunAll(first, steps), i, plan, later, t);
  }

  /** A recorded original schedule survives every run; acceleration records it when it is missing. */
  lemma {:induction false} OriginalScheduleKept(s: Store, steps: seq<Transaction>, t: nat)
    requires t in s.tasks && s.tasks[t].originalScheduledAt != 0
    ensures var s' := RunAll(s, steps);
      t in s'.tasks && s'.tasks[t].originalScheduledAt == s.tasks[t].originalScheduledAt
    decreases |steps|
  {
    if steps != [] {
      OriginalScheduleKept(Run(s, steps[0]), steps[1..], t);
    }
  }

  lemma AccelerationRecordsSchedule(s: Store, i: int, plan: seq<string>, now: int, t: nat)
    requires HasStatus(s, i, Withdrawing) && t in s.tasks && s.tasks[t].instance == i && s.tasks[t].node in plan
    requires s.tasks[t].kind.Process? && s.tasks[t].status.Pending()
    ensures var task := ActivateCompensations(s, i, plan, now).store.tasks[t];
      && task.status.Waiting? && task.kind.Compensation? && task.scheduledAt == now
      && task.originalScheduledAt ==
           (if s.tasks[t].originalScheduledAt != 0 then s.tasks[t].originalScheduledAt else s.tasks[t].scheduledAt)
  {
  }

  // ---------------------------------------------------------------- the schedule that breaks it

  function StaleSchedule(): seq<Event> {
    [ Local(OpenTicket(1)), PrepareWithdrawal(0, 1), BuildPlan(0, []), RecoverActive(1),
      Local(Transaction.CreateTask(1, 1, "deploy", "undo", 0, false)),
      Local(Transaction.CreateTask(2, 1, "undo", "", 0, false)),
      Local(Transaction.Begin(1)), Local(Transaction.Complete(RequestId(1, 1), AttemptStatus.Success)),
      Local(Transaction.Begin(2)), PrepareWithdrawal(1, 1),
      RevokeEngine(0, false), ActivatePlan(0, 0), Finalize(0) ]
  }

  function SourceTask(status: TaskStatus, current: nat): Task {
    Task(1, "deploy", "undo", status, Process, current, 0, 0, 0)
  }

  function UndoTask(status: TaskStatus, current: nat): Task {
    Task(1, "undo", "", status, Process, current, 0, 0, 0)
  }

  function StaleFlow(): Flow { Flow(1, 1, Planned, [], 0) }

  /** After the first withdrawal was prepared, planned and rolled back by the recovery job. */
  function RolledBack(tasks: map<nat, Task>, attempts: map<nat, Attempt>, nextAttempt: nat): Sys {
    Sys(Store(map[1 := Processing], tasks, attempts, nextAttempt), {}, map[1 := 1], map[0 := StaleFlow()], map[])
  }

  lemma StaleStart(e: seq<Event>)
    requires e == StaleSchedule()[..4]
    ensures Play(INITIAL, e) == RolledBack(map[], map[], 1)
  {
    var s1 := Next(INITIAL, e[0]);
    var s2 := Next(s1, e[1]);
    assert s2.db.tasks == map[];
    var s3 := Next(s2, e[2]);
    assert s3.flows == map[0 := StaleFlow()];
    assert Next(s3, e[3]) == RolledBack(map[], map[], 1);
    PlayFour(INITIAL, e);
  }

  lemma PlayThree(sys: Sys, e: seq<Event>)
    requires |e| == 3
    ensures Play(sys, e) == Next(Next(Next(sys, e[0]), e[1]), e[2])
  {
    var s1 := Next(sys, e[0]);
    var s2 := Next(s1, e[1]);
    assert Play(s1, e[1..]) == Play(s2, e[1..][1..]);
    assert e[1..][1..] == [e[2]];
    assert Play(s2, [e[2]]) == Play(Next(s2, e[2]), [e[2]][1..]);
  }

  lemma PlayFour(sys: Sys, e: seq<Event>)
    requires |e| == 4
    ensures Play(sys, e) == Next(Next(Next(Next(sys, e[0]), e[1]), e[2]), e[3])
  {
    PlayThree(Next(sys, e[0]), e[1..]);
  }

  function SourceAttempt(status: AttemptStatus): Attempt { Attempt(1, 1, RequestId(1, 1), None, status) }

  function UndoAttempt(): Attempt { Attempt(2, 1, RequestId(2, 1), None, AttemptStatus.Submitting) }

  lemma StaleWork(e: seq<Event>)
    requires e == StaleSchedule()[4..7]
    ensures Play(RolledBack(map[], map[], 1), e) == Begun()
  {
    var s1 := Next(RolledBack(map[], map[], 1), e[0]);
    assert s1 == RolledBack(map[1 := SourceTask(Waiting, 0)], map[], 1);
    var s2 := Next(s1, e[1]);
    assert s2 == RolledBack(map[1 := SourceTask(Waiting, 0), 2 := UndoTask(Waiting, 0)], map[], 1);
    PlayThree(RolledBack(map[], map[], 1), e);
  }

  function Working(): Sys {
    RolledBack(map[1 := SourceTask(TaskStatus.Success, 1), 2 := UndoTask(TaskStatus.Submitting, 2)],
               map[1 := SourceAttempt(AttemptStatus.Success), 2 := UndoAttempt()], 3)
  }

  /** The second withdrawal has been prepared while the undo task executes. */
  function Reprepared(): Sys {
    Working().(db := Working().db.(tickets := map[1 := Withdrawing]), rounds := map[1 := 2],
               flows := map[0 := StaleFlow(), 1 := Flow(1, 2, Planning, [], 0)])
  }

  function Begun(): Sys {
    RolledBack(map[1 := SourceTask(TaskStatus.Submitting, 1), 2 := UndoTask(Waiting, 0)],
               map[1 := SourceAttempt(AttemptStatus.Submitting)], 2)
  }

  function Succeeded(): Sys {
    RolledBack(map[1 := SourceTask(TaskStatus.Success, 1), 2 := UndoTask(Waiting, 0)],
               map[1 := SourceAttempt(AttemptStatus.Success)], 2)
  }

  lemma StaleComplete()
    ensures Next(Begun(), Local(Transaction.Complete(RequestId(1, 1), AttemptStatus.Success))) == Succeeded()
  {
    assert WithRequest(Begun().db, RequestId(1, 1)) == {1};
  }

  lemma StaleBegin()
    ensures Next(Succeeded(), Local(Transaction.Begin(2))) == Working()
  {
    assert LastNumber(Succeeded().db.attempts, 2) == 0;
  }

  lemma StaleSecond(e: seq<Event>)
    requires e == StaleSchedule()[7..10]
    ensures Play(Begun(), e) == Reprepared()
  {
    StaleComplete();
    StaleBegin();
    StaleReprepare();
    PlayThree(Begun(), e);
  }

  lemma StaleReprepare()
    ensures Next(Working(), PrepareWithdrawal(1, 1)) == Reprepared()
  {
    var s := Working().db;
    assert Compensates(s, 1, 1, "undo");
    assert forall t | t in s.tasks :: !Obstructs(s, 1, t);
  }

  function Revoked(): Sys {
    Reprepared().(revoked := {1}, flows := Reprepared().flows[0 := Flow(1, 1, Applying, [], 0)])
  }

  lemma StaleRevoke()
    ensures Next(Reprepared(), RevokeEngine(0, false)) == Revoked()
    ensures !InOwnRound(Reprepared(), RevokeEngine(0, false))
  {
  }

  lemma StaleApply()
    ensures var s := Next(Revoked(), ActivatePlan(0, 0));
      s.db == Revoked().db && At(s, 0, Finalizing) && s.flows[0].instance == 1
  {
    assert ActivateCompensations(Revoked().db, 1, [], 0).store.tasks == Revoked().db.tasks;
  }

  lemma StaleFinish(s: Sys)
    requires s.db == Revoked().db && At(s, 0, Finalizing) && s.flows[0].instance == 1
    ensures Next(s, Finalize(0)).db == s.db.(tickets := map[1 := Withdrawn])
  {
    assert forall t | t in s.db.tasks :: !Unfinished(s.db, 1, t);
  }

  lemma StaleEnd(e: seq<Event>)
    requires e == StaleSchedule()[10..]
    ensures Play(Reprepared(), e).db == Reprepared().db.(tickets := map[1 := Withdrawn])
    ensures !InOwnRound(Reprepared(), e[0])
  {
    StaleRevoke();
    StaleApply();
    StaleFinish(Next(Revoked(), ActivatePlan(0, 0)));
    PlayThree(Reprepared(), e);
  }

  lemma StalePrefix()
    ensures Play(INITIAL, StaleSchedule()[..10]) == Reprepared()
  {
    var e := StaleSchedule();
    StaleStart(e[..4]);
    StaleWork(e[4..7]);
    StaleSecond(e[7..10]);
    PlaySplit(INITIAL, e[..4], e[4..7]);
    PlaySplit(INITIAL, e[..4] + e[4..7], e[7..10]);
    assert e[..4] + e[4..7] + e[7..10] == e[..10];
  }

  /** A service call that stalls before revoking the engine, is rolled back by the recovery job and
      then continues into the next withdrawal, applies its old plan: the ticket ends withdrawn while
      a task of its instance is still executing. The revocation is the one event out of its round. */
  lemma StaleFlowBreaksWithdrawal()
    ensures var sys := Play(INITIAL, StaleSchedule());
      HasStatus(sys.db, 1, Withdrawn) && ActiveIn(sys.db, 1, 2)
    ensures !InOwnRound(Play(INITIAL, StaleSchedule()[..10]), StaleSchedule()[10])
  {
    var e := StaleSchedule();
    StalePrefix();
    StaleEnd(e[10..]);
    PlaySplit(INITIAL, e[..10], e[10..]);
    assert e[..10] + e[10..] == e;
  }
}
