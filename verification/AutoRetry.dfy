/** Automatic retries by the recovery job: attempts are bounded and retrying comes to a stop. */
module AutoRetry {
  import opened Prelude
  import opened AutomationModel
  import opened Transactions

  const MAX_ATTEMPTS: nat := 5

  /** What a recovery worker is doing: it lists failed tasks, looks at one again, then acts on it. */
  datatype Worker = Idle | Listed(task: nat) | Checked(task: nat)

  datatype System = System(store: Store, workers: map<nat, Worker>)

  datatype Step =
    | Elsewhere(step: Transaction)
    | List(worker: nat, task: nat)
    | Look(worker: nat)
    | Act(worker: nat)

  /** Neither a retry by hand nor a withdrawal. */
  predicate Ordinary(step: Transaction) {
    !step.PrepareRetry? && !step.Prepare? && !step.Activate? && !step.TryFinalize? && !step.Rollback?
  }

  predicate IsStatus(s: Store, id: nat, status: TaskStatus) { id in s.tasks && s.tasks[id].status == status }

  function Next(sys: System, step: Step): System {
    match step
    case Elsewhere(tx) => if Ordinary(tx) then sys.(store := Run(sys.store, tx)) else sys
    case List(w, id) =>
      if w in sys.workers && sys.workers[w].Idle? && IsStatus(sys.store, id, TaskStatus.Failed)
      then sys.(workers := sys.workers[w := Listed(id)]) else sys
    case Look(w) =>
      if w !in sys.workers || !sys.workers[w].Listed? then sys else
      var id := sys.workers[w].task;
      if !IsStatus(sys.store, id, TaskStatus.Failed) && !IsStatus(sys.store, id, TaskStatus.Blocked)
      then sys.(workers := sys.workers[w := Idle])
      else if |AttemptsOf(sys.store, id)| >= MAX_ATTEMPTS
      then System(Run(sys.store, Transaction.Block(id)), sys.workers[w := Idle])
      else sys.(workers := sys.workers[w := Checked(id)])
    case Act(w) =>
      if w !in sys.workers || !sys.workers[w].Checked? then sys else
      System(Run(sys.store, Transaction.PrepareRetry(sys.workers[w].task)), sys.workers[w := Idle])
  }

  // ---------------------------------------------------------------- how one task's numbers move

  predicate Hot(status: TaskStatus) { status.Failed? || status.Active() }

  /** Nothing is gained: no attempt, no new wait, no new failure. */
  ghost predicate Calmer(s: Store, s': Store, id: nat) {
    && AttemptsOf(s', id) == AttemptsOf(s, id)
    && (id in s'.tasks ==> id in s.tasks)
    && (id in s'.tasks && Hot(s'.tasks[id].status) ==> Hot(s.tasks[id].status))
    && (IsStatus(s', id, TaskStatus.Waiting) ==> IsStatus(s, id, TaskStatus.Waiting))
  }

  ghost predicate Begun(s: Store, s': Store, id: nat) {
    && |AttemptsOf(s', id)| == |AttemptsOf(s, id)| + 1
    && IsStatus(s, id, TaskStatus.Waiting) && IsStatus(s', id, TaskStatus.Submitting)
  }

  ghost predicate Created(s: Store, s': Store, id: nat) {
    id !in s.tasks && id in s'.tasks && AttemptsOf(s', id) == {} && !Hot(s'.tasks[id].status)
  }

  lemma NoOrphans(s: Store, id: nat)
    requires Linked(s) && id !in s.tasks
    ensures AttemptsOf(s, id) == {}
  {
    forall a ensures a !in AttemptsOf(s, id) {
      if a in s.attempts { assert AttemptOk(s, a); }
    }
  }

  lemma BeginShape(s: Store, t: nat) returns (attempt: Attempt)
    ensures attempt.task == t && attempt.status.Submitting?
    ensures var s' := AutomationModel.Begin(s, t).store;
      s' == s
      || (IsStatus(s, t, TaskStatus.Waiting) && s'.attempts == s.attempts[s.nextAttempt := attempt]
          && s'.tasks == s.tasks[t := s.tasks[t].(status := TaskStatus.Submitting, current := s.nextAttempt)])
  {
    attempt := Attempt(t, LastNumber(s.attempts, t) + 1, RequestId(t, LastNumber(s.attempts, t) + 1), None,
                       AttemptStatus.Submitting);
  }

  lemma AttemptAdded(s: Store, s': Store, attempt: Attempt, id: nat)
    requires s.nextAttempt !in s.attempts && s'.attempts == s.attempts[s.nextAttempt := attempt]
    ensures AttemptsOf(s', id) == AttemptsOf(s, id) + if attempt.task == id then {s.nextAttempt} else {}
    ensures |AttemptsOf(s', id)| == |AttemptsOf(s, id)| + if attempt.task == id then 1 else 0
  {
    assert AttemptsOf(s', id) == AttemptsOf(s, id) + if attempt.task == id then {s.nextAttempt} else {};
  }

  lemma BeginCounts(s: Store, t: nat, id: nat)
    requires s.nextAttempt !in s.attempts
    ensures Calmer(s, Run(s, Transaction.Begin(t)), id) || Begun(s, Run(s, Transaction.Begin(t)), id)
  {
    var s' := Run(s, Transaction.Begin(t));
    var attempt := BeginShape(s, t);
    if s' != s {
      AttemptAdded(s, s', attempt, id);
    }
  }

  lemma CreateCounts(s: Store, tx: Transaction, id: nat)
    requires tx.CreateTask? && (id !in s.tasks ==> AttemptsOf(s, id) == {})
    ensures Calmer(s, Run(s, tx), id) || Created(s, Run(s, tx), id)
  {
    assert AttemptsOf(Run(s, tx), id) == AttemptsOf(s, id);
  }

  lemma OtherCounts(s: Store, tx: Transaction, id: nat)
    requires Ordinary(tx) && !tx.Begin? && !tx.CreateTask?
    ensures Calmer(s, Run(s, tx), id)
  {
    var s' := Run(s, tx);
    assert AttemptsOf(s', id) == AttemptsOf(s, id);
  }

  lemma TransactionCounts(s: Store, tx: Transaction, id: nat)
    requires Consistent(s) && Ordinary(tx)
    ensures Calmer(s, Run(s, tx), id) || Begun(s, Run(s, tx), id) || Created(s, Run(s, tx), id)
  {
    match tx
    case Begin(t) =>
      NextIsFresh(s);
      BeginCounts(s, t, id);
    case CreateTask(_, _, _, _, _, _) =>
      if id !in s.tasks { NoOrphans(s, id); }
      CreateCounts(s, tx, id);
    case _ => OtherCounts(s, tx, id);
  }

  // ---------------------------------------------------------------- the bound on attempts

  function CheckedFor(workers: map<nat, Worker>, id: nat): set<nat> {
    set w | w in workers && workers[w] == Checked(id)
  }

  function EngagedOn(workers: map<nat, Worker>, id: nat): set<nat> {
    set w | w in workers && !workers[w].Idle? && workers[w].task == id
  }

  function Waits(s: Store, id: nat): nat { if IsStatus(s, id, TaskStatus.Waiting) then 1 else 0 }

  /** Attempts made, the one a waiting task is good for, and those workers have already granted. */
  function Granted(sys: System, id: nat): nat {
    |AttemptsOf(sys.store, id)| + Waits(sys.store, id) + |CheckedFor(sys.workers, id)|
  }

  ghost predicate Bounded(sys: System) {
    && Consistent(sys.store)
    && (forall w | w in sys.workers && !sys.workers[w].Idle? :: sys.workers[w].task in sys.store.tasks)
    && (forall id: nat {:trigger Granted(sys, id)} :: Granted(sys, id) < MAX_ATTEMPTS + |sys.workers|)
  }

  lemma WorkerMoves(workers: map<nat, Worker>, w: nat, next: Worker, id: nat)
    requires w in workers
    ensures CheckedFor(workers[w := next], id) ==
      if next == Checked(id) then CheckedFor(workers, id) + {w} else CheckedFor(workers, id) - {w}
    ensures EngagedOn(workers[w := next], id) ==
      if !next.Idle? && next.task == id then EngagedOn(workers, id) + {w} else EngagedOn(workers, id) - {w}
    ensures |workers[w := next]| == |workers|
  {
    assert workers[w := next].Keys == workers.Keys;
  }

  lemma FewerChecked(workers: map<nat, Worker>, w: nat, id: nat)
    requires w in workers && workers[w] != Checked(id)
    ensures |CheckedFor(workers, id)| < |workers|
  {
    assert w in workers.Keys && w !in CheckedFor(workers, id);
    SubsetSize(CheckedFor(workers, id), workers.Keys);
  }

  lemma ElsewhereBounded(sys: System, tx: Transaction, id: nat)
    requires Bounded(sys) && Ordinary(tx)
    ensures Granted(sys.(store := Run(sys.store, tx)), id) < MAX_ATTEMPTS + |sys.workers|
  {
    TransactionCounts(sys.store, tx, id);
    assert Granted(sys, id) < MAX_ATTEMPTS + |sys.workers|;
    if Created(sys.store, Run(sys.store, tx), id) {
      forall w ensures w !in CheckedFor(sys.workers, id) {}
      assert CheckedFor(sys.workers, id) == {};
    }
  }

  lemma LookBounded(sys: System, w: nat, id: nat)
    requires Granted(sys, id) < MAX_ATTEMPTS + |sys.workers| && w in sys.workers && sys.workers[w].Listed?
    ensures Granted(Next(sys, Look(w)), id) < MAX_ATTEMPTS + |sys.workers|
  {
    var sys', task := Next(sys, Look(w)), sys.workers[w].task;
    WorkerMoves(sys.workers, w, sys'.workers[w], id);
    SubsetSize(CheckedFor(sys.workers, id) - {w}, CheckedFor(sys.workers, id));
    if sys'.store != sys.store {
      OtherCounts(sys.store, Transaction.Block(task), id);
    } else if sys'.workers[w] == Checked(id) {
      FewerChecked(sys.workers, w, id);
    }
  }

  lemma PrepareCounts(s: Store, t: nat, id: nat)
    ensures var s' := Run(s, Transaction.PrepareRetry(t));
      AttemptsOf(s', id) == AttemptsOf(s, id)
      && (if id == t && id in s.tasks && s.tasks[id].status.CanRetry()
          then IsStatus(s', id, TaskStatus.Waiting) && !IsStatus(s, id, TaskStatus.Waiting)
          else Waits(s', id) == Waits(s, id) && (id in s'.tasks ==> id in s.tasks && s'.tasks[id] == s.tasks[id]))
  {
    assert AttemptsOf(Run(s, Transaction.PrepareRetry(t)), id) == AttemptsOf(s, id);
  }

  lemma ActBounded(sys: System, w: nat, id: nat)
    requires Granted(sys, id) < MAX_ATTEMPTS + |sys.workers| && w in sys.workers && sys.workers[w].Checked?
    ensures Granted(Next(sys, Act(w)), id) < MAX_ATTEMPTS + |sys.workers|
  {
    WorkerMoves(sys.workers, w, Idle, id);
    PrepareCounts(sys.store, sys.workers[w].task, id);
    if sys.workers[w].task == id {
      assert w in CheckedFor(sys.workers, id);
    }
    SubsetSize(CheckedFor(sys.workers, id) - {w}, CheckedFor(sys.workers, id));
  }

  lemma ListBounded(sys: System, w: nat, task: nat, id: nat)
    requires Granted(sys, id) < MAX_ATTEMPTS + |sys.workers| && w in sys.workers && sys.workers[w].Idle?
    ensures Granted(Next(sys, List(w, task)), id) < MAX_ATTEMPTS + |sys.workers|
  {
    WorkerMoves(sys.workers, w, Listed(task), id);
    SubsetSize(CheckedFor(sys.workers, id) - {w}, CheckedFor(sys.workers, id));
  }

  lemma StepBounded(sys: System, step: Step, id: nat)
    requires Bounded(sys)
    ensures Granted(Next(sys, step), id) < MAX_ATTEMPTS + |sys.workers|
  {
    assert Granted(sys, id) < MAX_ATTEMPTS + |sys.workers|;
    match step
    case Elsewhere(tx) => if Ordinary(tx) { ElsewhereBounded(sys, tx, id); }
    case List(w, task) => if w in sys.workers && sys.workers[w].Idle? { ListBounded(sys, w, task, id); }
    case Look(w) => if w in sys.workers && sys.workers[w].Listed? { LookBounded(sys, w, id); }
    case Act(w) => if w in sys.workers && sys.workers[w].Checked? { ActBounded(sys, w, id); }
  }

  lemma NextConsistent(sys: System, step: Step)
    requires Bounded(sys)
    ensures Consistent(Next(sys, step).store) && |Next(sys, step).workers| == |sys.workers|
  {
    match step
    case Elsewhere(tx) => StepKeepsConsistent(sys.store, tx);
    case List(w, task) => if w in sys.workers { WorkerMoves(sys.workers, w, Listed(task), task); }
    case Look(w) =>
      if w in sys.workers && sys.workers[w].Listed? {
        StepKeepsConsistent(sys.store, Transaction.Block(sys.workers[w].task));
        WorkerMoves(sys.workers, w, Next(sys, step).workers[w], sys.workers[w].task);
      }
    case Act(w) =>
      if w in sys.workers && sys.workers[w].Checked? {
        StepKeepsConsistent(sys.store, Transaction.PrepareRetry(sys.workers[w].task));
        WorkerMoves(sys.workers, w, Idle, sys.workers[w].task);
      }
  }

  lemma TasksStay(s: Store, tx: Transaction, id: nat)
    requires id in s.tasks
    ensures id in Run(s, tx).tasks
  {
    match tx
    case Begin(t) => var attempt := BeginShape(s, t);
    case _ =>
  }

  lemma WorkersKnow(sys: System, step: Step, w: nat)
    requires Bounded(sys) && w in Next(sys, step).workers && !Next(sys, step).workers[w].Idle?
    ensures Next(sys, step).workers[w].task in Next(sys, step).store.tasks
  {
    var id := Next(sys, step).workers[w].task;
    match step
    case Elsewhere(tx) => if id in sys.store.tasks { TasksStay(sys.store, tx, id); }
    case List(_, _) =>
    case Look(v) =>
      if v in sys.workers && sys.workers[v].Listed? { TasksStay(sys.store, Transaction.Block(sys.workers[v].task), id); }
    case Act(v) =>
      if v in sys.workers && sys.workers[v].Checked? {
        TasksStay(sys.store, Transaction.PrepareRetry(sys.workers[v].task), id);
      }
  }

  lemma NextBounded(sys: System, step: Step)
    requires Bounded(sys)
    ensures Bounded(Next(sys, step)) && |Next(sys, step).workers| == |sys.workers|
  {
    var sys' := Next(sys, step);
    NextConsistent(sys, step);
    forall id: nat ensures Granted(sys', id) < MAX_ATTEMPTS + |sys.workers| { StepBounded(sys, step, id); }
    forall w | w in sys'.workers && !sys'.workers[w].Idle? ensures sys'.workers[w].task in sys'.store.tasks {
      WorkersKnow(sys, step, w);
    }
  }

  function Play(sys: System, steps: seq<Step>): System {
    if steps == [] then sys else Next(Play(sys, steps[..|steps| - 1]), steps[|steps| - 1])
  }

  function Fresh(workers: set<nat>): System { System(EMPTY, map w | w in workers :: Idle) }

  lemma FreshBounded(workers: set<nat>)
    ensures Bounded(Fresh(workers)) && |Fresh(workers).workers| == |workers|
  {
    var sys := Fresh(workers);
    EmptyConsistent();
    assert sys.workers.Keys == workers;
    forall id: nat ensures Granted(sys, id) == 0 {
      assert AttemptsOf(sys.store, id) == {} && CheckedFor(sys.workers, id) == {};
    }
  }

  lemma {:induction false} PlayBounded(workers: set<nat>, steps: seq<Step>)
    ensures Bounded(Play(Fresh(workers), steps)) && |Play(Fresh(workers), steps).workers| == |workers|
    decreases |steps|
  {
    if steps == [] {
      FreshBounded(workers);
    } else {
      PlayBounded(workers, steps[..|steps| - 1]);
      NextBounded(Play(Fresh(workers), steps[..|steps| - 1]), steps[|steps| - 1]);
    }
  }

  /** Without retries by hand and withdrawals, `n` recovery workers never give a task more than `4 + n`
      attempts: with one worker the documented maximum of five holds. */
  lemma AttemptsBounded(workers: set<nat>, steps: seq<Step>, id: nat)
    ensures |AttemptsOf(Play(Fresh(workers), steps).store, id)| <= MAX_ATTEMPTS - 1 + |workers|
  {
    PlayBounded(workers, steps);
    var sys := Play(Fresh(workers), steps);
    assert Granted(sys, id) < MAX_ATTEMPTS + |workers|;
  }

  // ---------------------------------------------------------------- retrying stops

  /** Workers that may still retry the task without a further attempt: all while it fails or runs. */
  function Pressure(sys: System, id: nat): nat {
    if id in sys.store.tasks && Hot(sys.store.tasks[id].status) then |sys.workers| else |EngagedOn(sys.workers, id)|
  }

  /** The measure: what the attempts still possible are worth, plus the pressure now. */
  function Potential(sys: System, id: nat): int {
    Worth(|sys.workers|, |AttemptsOf(sys.store, id)|) + Pressure(sys, id)
  }

  function Worth(workers: nat, attempts: nat): int { workers * (MAX_ATTEMPTS - 1 + workers - attempts) }

  lemma OneMoreAttempt(workers: nat, attempts: nat)
    ensures Worth(workers, attempts + 1) == Worth(workers, attempts) - workers
  {
    assert workers * (MAX_ATTEMPTS - 1 + workers - attempts - 1) ==
      workers * (MAX_ATTEMPTS - 1 + workers - attempts) - workers;
  }

  lemma WorthNatural(workers: nat, attempts: nat)
    requires attempts <= MAX_ATTEMPTS - 1 + workers
    ensures Worth(workers, attempts) >= 0
  {
  }

  predicate Retries(sys: System, step: Step, id: nat) {
    step.Act? && step.worker in sys.workers && sys.workers[step.worker] == Checked(id)
    && id in sys.store.tasks && sys.store.tasks[id].status.CanRetry()
  }

  lemma PotentialNatural(sys: System, id: nat)
    requires Bounded(sys)
    ensures Potential(sys, id) >= 0
  {
    assert Granted(sys, id) < MAX_ATTEMPTS + |sys.workers|;
    WorthNatural(|sys.workers|, |AttemptsOf(sys.store, id)|);
  }

  lemma EngagedWithin(workers: map<nat, Worker>, id: nat)
    ensures |EngagedOn(workers, id)| <= |workers|
  {
    SubsetSize(EngagedOn(workers, id), workers.Keys);
  }

  lemma CalmerPressure(sys: System, after: Store, id: nat)
    requires Calmer(sys.store, after, id)
    ensures Pressure(sys.(store := after), id) <= Pressure(sys, id)
  {
    EngagedWithin(sys.workers, id);
  }

  lemma CreatedPressure(sys: System, after: Store, id: nat)
    requires Created(sys.store, after, id)
    ensures Pressure(sys.(store := after), id) == Pressure(sys, id)
  {
  }

  lemma ElsewherePotential(sys: System, tx: Transaction, id: nat)
    requires Consistent(sys.store) && Ordinary(tx)
    ensures Potential(sys.(store := Run(sys.store, tx)), id) <= Potential(sys, id)
  {
    var after := Run(sys.store, tx);
    TransactionCounts(sys.store, tx, id);
    if Begun(sys.store, after, id) {
      OneMoreAttempt(|sys.workers|, |AttemptsOf(sys.store, id)|);
      BegunPressure(sys, after, id);
    } else if Created(sys.store, after, id) {
      NoOrphans(sys.store, id);
      CreatedPressure(sys, after, id);
    } else {
      CalmerPressure(sys, after, id);
    }
  }

  lemma BegunPressure(sys: System, after: Store, id: nat)
    requires Begun(sys.store, after, id)
    ensures Pressure(sys.(store := after), id) <= |sys.workers|
  {
  }

  lemma WorkerPotential(sys: System, w: nat, next: Worker, id: nat)
    requires w in sys.workers
    requires next.Idle? || (!sys.workers[w].Idle? && next.task == sys.workers[w].task) || IsStatus(sys.store, next.task, TaskStatus.Failed)
    ensures Potential(sys.(workers := sys.workers[w := next]), id) <= Potential(sys, id)
  {
    WorkerMoves(sys.workers, w, next, id);
    SubsetSize(EngagedOn(sys.workers, id) - {w}, EngagedOn(sys.workers, id));
    if !sys.workers[w].Idle? && sys.workers[w].task == id {
      assert EngagedOn(sys.workers, id) + {w} == EngagedOn(sys.workers, id);
    }
  }

  lemma ActPotential(sys: System, w: nat, id: nat)
    requires Bounded(sys) && w in sys.workers && sys.workers[w].Checked?
    ensures Potential(Next(sys, Act(w)), id) <= Potential(sys, id)
    ensures Retries(sys, Act(w), id) ==> Potential(Next(sys, Act(w)), id) < Potential(sys, id)
  {
    var after := Next(sys, Act(w));
    PrepareCounts(sys.store, sys.workers[w].task, id);
    WorkerMoves(sys.workers, w, Idle, id);
    ActPressure(sys, after, w, id);
  }

  lemma ActPressure(sys: System, after: System, w: nat, id: nat)
    requires w in sys.workers && sys.workers[w].Checked? && after.workers == sys.workers[w := Idle]
    requires EngagedOn(after.workers, id) == EngagedOn(sys.workers, id) - {w} && |after.workers| == |sys.workers|
    requires if sys.workers[w].task == id && id in sys.store.tasks && sys.store.tasks[id].status.CanRetry()
      then IsStatus(after.store, id, TaskStatus.Waiting)
      else id in after.store.tasks ==> id in sys.store.tasks && after.store.tasks[id] == sys.store.tasks[id]
    ensures Pressure(after, id) <= Pressure(sys, id)
    ensures Retries(sys, Act(w), id) ==> Pressure(after, id) < Pressure(sys, id)
  {
    EngagedWithin(sys.workers, id);
    if sys.workers[w].task == id { assert w in EngagedOn(sys.workers, id); }
    SubsetSize(EngagedOn(sys.workers, id) - {w}, EngagedOn(sys.workers, id));
  }

  lemma LookPotential(sys: System, w: nat, id: nat)
    requires Consistent(sys.store) && w in sys.workers && sys.workers[w].Listed?
    ensures Potential(Next(sys, Look(w)), id) <= Potential(sys, id)
  {
    var after := Next(sys, Look(w));
    WorkerPotential(sys, w, after.workers[w], id);
    if after.store != sys.store {
      var moved := sys.(workers := after.workers);
      ElsewherePotential(moved, Transaction.Block(sys.workers[w].task), id);
    }
  }

  /** No step raises a task's measure, and every automatic retry lowers it. */
  lemma RetriesLowerPotential(sys: System, step: Step, id: nat)
    requires Bounded(sys)
    ensures 0 <= Potential(Next(sys, step), id) <= Potential(sys, id)
    ensures Retries(sys, step, id) ==> Potential(Next(sys, step), id) < Potential(sys, id)
  {
    NextBounded(sys, step);
    PotentialNatural(Next(sys, step), id);
    match step
    case Elsewhere(tx) => if Ordinary(tx) { ElsewherePotential(sys, tx, id); }
    case List(w, task) => if Next(sys, step) != sys { WorkerPotential(sys, w, Listed(task), id); }
    case Look(w) => if w in sys.workers && sys.workers[w].Listed? { LookPotential(sys, w, id); }
    case Act(w) => if w in sys.workers && sys.workers[w].Checked? { ActPotential(sys, w, id); }
  }

  function RetryCount(sys: System, steps: seq<Step>, id: nat): nat {
    if steps == [] then 0 else
    var last := |steps| - 1;
    RetryCount(sys, steps[..last], id) + if Retries(Play(sys, steps[..last]), steps[last], id) then 1 else 0
  }

  lemma {:induction false} RetriesPaidFor(workers: set<nat>, steps: seq<Step>, id: nat)
    ensures RetryCount(Fresh(workers), steps, id) + Potential(Play(Fresh(workers), steps), id) <= Potential(Fresh(workers), id)
    decreases |steps|
  {
    if steps != [] {
      var last := |steps| - 1;
      RetriesPaidFor(workers, steps[..last], id);
      PlayBounded(workers, steps[..last]);
      RetriesLowerPotential(Play(Fresh(workers), steps[..last]), steps[last], id);
    }
  }

  /** In every run the workers together retry a task only finitely often. */
  lemma RetriesBounded(workers: set<nat>, steps: seq<Step>, id: nat)
    ensures RetryCount(Fresh(workers), steps, id) <= |workers| * (MAX_ATTEMPTS - 1 + |workers|)
  {
    RetriesPaidFor(workers, steps, id);
    PlayBounded(workers, steps);
    PotentialNatural(Play(Fresh(workers), steps), id);
    FreshBounded(workers);
    assert AttemptsOf(EMPTY, id) == {} && EngagedOn(Fresh(workers).workers, id) == {};
    assert Worth(|workers|, 0) == |workers| * (MAX_ATTEMPTS - 1 + |workers|);
  }

  // ---------------------------------------------------------------- the bound is reached

  lemma Extended(start: System, steps: seq<Step>, e: Step) returns (more: seq<Step>)
    ensures more == steps + [e] && Play(start, more) == Next(Play(start, steps), e)
  {
    more := steps + [e];
    assert more[..|steps|] == steps;
  }

  /** A task that may begin as soon as it waits. */
  ghost predicate Startable(s: Store, id: nat) {
    && id in s.tasks && s.tasks[id].kind.Process?
    && s.tasks[id].instance in s.tickets && s.tickets[s.tasks[id].instance].Processing?
  }

  ghost predicate Stands(s: Store, id: nat, status: TaskStatus, n: nat) {
    Consistent(s) && Startable(s, id) && IsStatus(s, id, status) && |AttemptsOf(s, id)| == n
  }

  lemma BegunFrom(s: Store, id: nat, n: nat)
    requires Stands(s, id, TaskStatus.Waiting, n)
    ensures var s', a := Run(s, Transaction.Begin(id)), s.nextAttempt;
      && Stands(s', id, TaskStatus.Submitting, n + 1) && s'.tasks[id].current == a && a in s'.attempts
      && s'.attempts[a].task == id && s'.attempts[a].status.Submitting?
  {
    var attempt := BeginShape(s, id);
    NextIsFresh(s);
    StepKeepsConsistent(s, Transaction.Begin(id));
    AttemptAdded(s, Run(s, Transaction.Begin(id)), attempt, id);
  }

  lemma FailedFrom(s: Store, id: nat, a: nat, n: nat)
    requires Stands(s, id, TaskStatus.Submitting, n) && s.tasks[id].current == a && a in s.attempts
    requires s.attempts[a].task == id && s.attempts[a].status.Submitting?
    ensures Stands(Run(s, Transaction.Complete(s.attempts[a].request, AttemptStatus.Failed)), id, TaskStatus.Failed, n)
  {
    var tx := Transaction.Complete(s.attempts[a].request, AttemptStatus.Failed);
    var s' := Run(s, tx);
    CompletesOwn(s, a, AttemptStatus.Failed);
    CompletedRow(s, s', id, a);
    StepKeepsConsistent(s, tx);
  }

  lemma CompletedRow(s: Store, s': Store, id: nat, a: nat)
    requires s' == CompleteById(s, a, AttemptStatus.Failed).store && a in s.attempts && s.attempts[a].task == id
    requires s.attempts[a].status.Submitting? && IsStatus(s, id, TaskStatus.Submitting) && s.tasks[id].current == a
    ensures AttemptsOf(s', id) == AttemptsOf(s, id) && s'.tickets == s.tickets
    ensures s'.tasks == s.tasks[id := s.tasks[id].(status := TaskStatus.Failed)]
  {
    assert AttemptsOf(s', id) == AttemptsOf(s, id);
  }

  /** A waiting task is begun and its execution fails. */
  lemma FailOnce(start: System, steps: seq<Step>, id: nat, n: nat) returns (more: seq<Step>)
    requires Stands(Play(start, steps).store, id, TaskStatus.Waiting, n)
    ensures Stands(Play(start, more).store, id, TaskStatus.Failed, n + 1)
    ensures Play(start, more).workers == Play(start, steps).workers
  {
    var s := Play(start, steps).store;
    BegunFrom(s, id, n);
    more := Extended(start, steps, Elsewhere(Transaction.Begin(id)));
    var begun := Play(start, more).store;
    FailedFrom(begun, id, s.nextAttempt, n + 1);
    more := Extended(start, more, Elsewhere(Transaction.Complete(begun.attempts[s.nextAttempt].request, AttemptStatus.Failed)));
  }

  ghost predicate Crew(workers: map<nat, Worker>, crew: set<nat>, doing: Worker) {
    forall w | w in crew :: w in workers && workers[w] == doing
  }

  /** Workers outside the crew go on with what they were doing. */
  ghost predicate OnlyCrew(before: map<nat, Worker>, after: map<nat, Worker>, crew: set<nat>) {
    after.Keys == before.Keys && forall w | w in before && w !in crew :: after[w] == before[w]
  }

  lemma LooksOnce(start: System, steps: seq<Step>, w: nat, id: nat, n: nat) returns (more: seq<Step>)
    requires Stands(Play(start, steps).store, id, TaskStatus.Failed, n) && n < MAX_ATTEMPTS
    requires w in Play(start, steps).workers && Play(start, steps).workers[w].Idle?
    ensures var sys := Play(start, steps); Play(start, more) == sys.(workers := sys.workers[w := Checked(id)])
  {
    var sys := Play(start, steps);
    more := Extended(start, steps, List(w, id));
    assert Play(start, more) == sys.(workers := sys.workers[w := Listed(id)]);
    more := Extended(start, more, Look(w));
    assert sys.workers[w := Listed(id)][w := Checked(id)] == sys.workers[w := Checked(id)];
  }

  /** All workers of an idle crew look at the failed task before any of them acts. */
  lemma {:induction false} AllLook(start: System, steps: seq<Step>, crew: set<nat>, id: nat, n: nat) returns (more: seq<Step>)
    requires Stands(Play(start, steps).store, id, TaskStatus.Failed, n) && n < MAX_ATTEMPTS
    requires Crew(Play(start, steps).workers, crew, Idle)
    ensures Play(start, more).store == Play(start, steps).store
    ensures Crew(Play(start, more).workers, crew, Checked(id))
    ensures OnlyCrew(Play(start, steps).workers, Play(start, more).workers, crew)
    decreases crew
  {
    more := steps;
    if crew != {} {
      var w :| w in crew;
      var once := LooksOnce(start, steps, w, id, n);
      more := AllLook(start, once, crew - {w}, id, n);
    }
  }

  lemma ResetStands(s: Store, id: nat, n: nat)
    requires Stands(s, id, TaskStatus.Failed, n)
    ensures Stands(Run(s, Transaction.PrepareRetry(id)), id, TaskStatus.Waiting, n)
  {
    var s' := Run(s, Transaction.PrepareRetry(id));
    assert Consistent(s') by { StepKeepsConsistent(s, Transaction.PrepareRetry(id)); }
    assert Startable(s', id) && IsStatus(s', id, TaskStatus.Waiting);
    assert AttemptsOf(s', id) == AttemptsOf(s, id) by { PrepareCounts(s, id, id); }
  }

  lemma ActsOnce(start: System, steps: seq<Step>, w: nat, id: nat, n: nat) returns (more: seq<Step>)
    requires Stands(Play(start, steps).store, id, TaskStatus.Failed, n)
    requires w in Play(start, steps).workers && Play(start, steps).workers[w] == Checked(id)
    ensures Stands(Play(start, more).store, id, TaskStatus.Failed, n + 1)
    ensures Play(start, more).workers == Play(start, steps).workers[w := Idle]
  {
    ResetStands(Play(start, steps).store, id, n);
    more := Extended(start, steps, Act(w));
    more := FailOnce(start, more, id, n);
  }

  /** Each worker of the crew acts on what it saw, and each time the execution fails. */
  lemma {:induction false} AllAct(start: System, steps: seq<Step>, crew: set<nat>, id: nat, n: nat) returns (more: seq<Step>)
    requires Stands(Play(start, steps).store, id, TaskStatus.Failed, n)
    requires Crew(Play(start, steps).workers, crew, Checked(id))
    ensures Stands(Play(start, more).store, id, TaskStatus.Failed, n + |crew|)
    ensures Crew(Play(start, more).workers, crew, Idle)
    ensures OnlyCrew(Play(start, steps).workers, Play(start, more).workers, crew)
    decreases crew
  {
    more := steps;
    if crew != {} {
      var w :| w in crew;
      var once := ActsOnce(start, steps, w, id, n);
      more := AllAct(start, once, crew - {w}, id, n + 1);
      assert |crew| == |crew - {w}| + 1;
    }
  }

  const FIRST := Task(1, "node", "", TaskStatus.Waiting, Process, 0, 0, 0, 0)

  lemma FirstCreated(s: Store)
    requires s == EMPTY.(tickets := map[1 := Processing])
    ensures Run(s, Transaction.CreateTask(1, 1, "node", "", 0, false)) == s.(tasks := map[1 := FIRST])
  {
    assert !NodeTaken(s, 1, "node");
  }

  lemma FirstStands(s: Store)
    requires s == EMPTY.(tickets := map[1 := Processing], tasks := map[1 := FIRST])
    ensures Stands(s, 1, TaskStatus.Waiting, 0)
  {
    assert AttemptsOf(s, 1) == {};
  }

  lemma FirstTask(workers: set<nat>) returns (steps: seq<Step>)
    ensures Stands(Play(Fresh(workers), steps).store, 1, TaskStatus.Waiting, 0)
    ensures Play(Fresh(workers), steps).workers == Fresh(workers).workers
  {
    var start := Fresh(workers);
    steps := Extended(start, [], Elsewhere(Transaction.OpenTicket(1)));
    var s := Play(start, steps).store;
    FirstCreated(s);
    steps := Extended(start, steps, Elsewhere(Transaction.CreateTask(1, 1, "node", "", 0, false)));
    FirstStands(Play(start, steps).store);
  }

  lemma {:induction false} FailsOften(workers: set<nat>, w: nat, n: nat) returns (steps: seq<Step>)
    requires w in workers && 1 <= n <= MAX_ATTEMPTS
    ensures Stands(Play(Fresh(workers), steps).store, 1, TaskStatus.Failed, n)
    ensures Crew(Play(Fresh(workers), steps).workers, workers, Idle)
  {
    var start := Fresh(workers);
    if n == 1 {
      steps := FirstTask(workers);
      steps := FailOnce(start, steps, 1, 0);
    } else {
      steps := FailsOften(workers, w, n - 1);
      steps := AllLook(start, steps, {w}, 1, n - 1);
      steps := AllAct(start, steps, {w}, 1, n - 1);
    }
  }

  /** The bound is reached by every number of workers: when all of them have counted four attempts before any of
      them acts, each brings about one more. */
  lemma BoundIsReached(workers: set<nat>) returns (steps: seq<Step>)
    requires workers != {}
    ensures |AttemptsOf(Play(Fresh(workers), steps).store, 1)| == MAX_ATTEMPTS - 1 + |workers|
  {
    var w :| w in workers;
    steps := FailsOften(workers, w, MAX_ATTEMPTS - 1);
    steps := AllLook(Fresh(workers), steps, workers, 1, MAX_ATTEMPTS - 1);
    steps := AllAct(Fresh(workers), steps, workers, 1, MAX_ATTEMPTS - 1);
  }

  /** The documented maximum is exceeded in some automatic history if and only if there are at least two recovery
      workers. */
  lemma MaximumExceededExactly(workers: set<nat>)
    ensures (exists steps, id: nat {:trigger AttemptsOf(Play(Fresh(workers), steps).store, id)} ::
        |AttemptsOf(Play(Fresh(workers), steps).store, id)| > MAX_ATTEMPTS) <==> |workers| >= 2
  {
    if |workers| >= 2 {
      var steps := BoundIsReached(workers);
      assert |AttemptsOf(Play(Fresh(workers), steps).store, 1)| > MAX_ATTEMPTS;
    } else {
      forall steps, id: nat ensures |AttemptsOf(Play(Fresh(workers), steps).store, id)| <= MAX_ATTEMPTS {
        AttemptsBounded(workers, steps, id);
      }
    }
  }

  // ---------------------------------------------------------------- cancelled tasks

  lemma TerminatesFailed(s: Store, id: nat)
    requires Consistent(s) && IsStatus(s, id, TaskStatus.Failed)
    ensures IsStatus(Run(s, Transaction.TerminateTask(id)), id, TaskStatus.Cancelled)
  {
    assert TaskOk(s, id);
  }

  /** Looking and acting are two transactions: from the start there is a history in which a task is cancelled in
      between and then set waiting again, although cancelled tasks are meant to be retried by hand only. */
  lemma RetryMayReviveCancelled(workers: set<nat>, w: nat) returns (steps: seq<Step>)
    requires w in workers
    ensures IsStatus(Play(Fresh(workers), steps).store, 1, TaskStatus.Cancelled)
    ensures Play(Fresh(workers), steps + [Act(w)]) == Next(Play(Fresh(workers), steps), Act(w))
    ensures IsStatus(Play(Fresh(workers), steps + [Act(w)]).store, 1, TaskStatus.Waiting)
  {
    var start := Fresh(workers);
    steps := FailsOften(workers, w, 1);
    steps := LooksOnce(start, steps, w, 1, 1);
    TerminatesFailed(Play(start, steps).store, 1);
    steps := Extended(start, steps, Elsewhere(Transaction.TerminateTask(1)));
    PrepareCounts(Play(start, steps).store, 1, 1);
    var revived := Extended(start, steps, Act(w));
  }

  /** Without retries by hand that is the only way back: a step sets a cancelled task waiting if and only if a worker
      acts that had checked the task before it was cancelled. */
  lemma RevivedExactly(sys: System, step: Step, id: nat)
    requires Bounded(sys) && IsStatus(sys.store, id, TaskStatus.Cancelled)
    ensures IsStatus(Next(sys, step).store, id, TaskStatus.Waiting) <==>
      step.Act? && step.worker in sys.workers && sys.workers[step.worker] == Checked(id)
  {
    match step
    case Elsewhere(tx) => if Ordinary(tx) { TransactionCounts(sys.store, tx, id); }
    case Look(w) =>
      if w in sys.workers && sys.workers[w].Listed? {
        OtherCounts(sys.store, Transaction.Block(sys.workers[w].task), id);
      }
    case Act(w) =>
      if w in sys.workers && sys.workers[w].Checked? { PrepareCounts(sys.store, sys.workers[w].task, id); }
    case List(_, _) =>
  }
}
