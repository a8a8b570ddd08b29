/** The automation task service: which transactions each of its operations issues, and when. */
module TaskService {
  import opened Prelude
  import opened AutomationModel
  import opened Transactions
  import opened WithdrawalModel
  import opened EtaskSync
  import opened AutomationDb
  import opened AutomationLaws

  const MAX_TASK_ATTEMPTS: nat := 5

  datatype TaskError =
    | NoTask | NoAttempt | NotPrepared | EtaskRefused | EtaskUnreachable | Conflict | NotRetryable | ManualOnly
    | NotConfirmed | BadReason | NotTerminable | BadRequest | BadStatus | NotFinalized(cause: DaoError)

  /** What the service meets outside its tables: preparation of the input, the road to etask, etask itself. */
  datatype World = World(prepared: bool, reachable: bool, etask: string -> Verdict)

  ghost predicate Issues(world: World, s: Store, s': Store, steps: seq<Transaction>) {
    s' == RunAll(s, steps) && FaithfulRun(world.etask, s, steps)
  }

  lemma {:induction false} IssuesOne(world: World, s: Store, m: Store, steps: seq<Transaction>, step: Transaction)
    requires Issues(world, s, m, steps) && Faithful(world.etask, m, step)
    ensures Issues(world, s, Run(m, step), steps + [step])
    decreases |steps|
  {
    var more := steps + [step];
    if steps == [] {
      assert more[1..] == [];
      assert RunAll(Run(s, step), more[1..]) == Run(s, step);
      assert FaithfulRun(world.etask, Run(s, step), more[1..]);
    } else {
      assert more[1..] == steps[1..] + [step];
      IssuesOne(world, Run(s, steps[0]), m, steps[1..], step);
    }
  }

  class Service {
    const db: Database

    constructor (db: Database)
      ensures this.db == db
    {
      this.db := db;
    }

    /** Hands an attempt to etask: a refusal ends it, a lost connection leaves it to be submitted again. */
    method SubmitAttempt(world: World, attempt: nat) returns (error: Option<TaskError>, ghost steps: seq<Transaction>)
      requires attempt in db.attempts
      modifies db
      ensures Issues(world, old(db.State()), db.State(), steps)
      ensures Submits(world, old(db.State()), attempt, steps, error)
    {
      if !world.reachable {
        return Some(EtaskUnreachable), [];
      }
      match world.etask(db.attempts[attempt].request) {
        case Rejected =>
          steps := [Transaction.RejectSubmission(attempt)];
          IssuesOne(world, db.State(), db.State(), [], steps[0]);
          var r := db.RejectSubmission(attempt);
          error := Some(EtaskRefused);
        case Accepted(e) =>
          steps := [Transaction.BindExecution(attempt, e)];
          IssuesOne(world, db.State(), db.State(), [], steps[0]);
          var r := db.BindExecution(attempt, e);
          error := if r.Ok? then None else Some(Conflict);
      }
    }

    /** Starts a waiting task, or submits again the live attempt that never reached etask. */
    method StartTask(world: World, id: nat) returns (error: Option<TaskError>, ghost steps: seq<Transaction>)
      requires Linked(db.State())
      modifies db
      ensures Issues(world, old(db.State()), db.State(), steps)
      ensures Starts(world, old(db.State()), id, steps, error)
    {
      steps := [];
      if id !in db.tasks {
        return Some(NoTask), steps;
      }
      var task := db.tasks[id];
      assert TaskOk(db.State(), id);
      if task.current > 0 && task.status.Active() {
        if db.attempts[task.current].execution.Some? {
          return None, steps;
        }
        error, steps := SubmitAttempt(world, task.current);
        return;
      }
      if !task.status.Waiting? {
        return None, steps;
      }
      if !world.prepared {
        steps := [Transaction.Block(id)];
        IssuesOne(world, db.State(), db.State(), [], steps[0]);
        db.Block(id);
        return Some(NotPrepared), steps;
      }
      error, steps := BeginAndSubmit(world, id);
    }

    method BeginAndSubmit(world: World, id: nat) returns (error: Option<TaskError>, ghost steps: seq<Transaction>)
      requires Linked(db.State()) && id in db.tasks && db.tasks[id].status.Waiting?
      modifies db
      ensures Issues(world, old(db.State()), db.State(), steps)
      ensures BeginsAndSubmits(world, old(db.State()), id, steps, error)
    {
      ghost var before := db.State();
      steps := [Transaction.Begin(id)];
      IssuesOne(world, before, before, [], steps[0]);
      var begun := db.Begin(id);
      if begun.Err? {
        return (if begun.error.NotRunnable? then None else Some(NoAttempt)), steps;
      }
      ghost var mid := db.State();
      ghost var more;
      error, more := SubmitAttempt(world, begun.value);
      IssuesJoined(world, before, mid, db.State(), steps, more);
      assert (steps + more)[1..] == more;
      steps := steps + more;
    }

    /** The number of attempts of a task. */
    method CountAttempts(id: nat) returns (n: nat)
      ensures n == |AttemptsOf(db.State(), id)|
    {
      var mine := set a | a in db.attempts && db.attempts[a].task == id;
      assert mine == AttemptsOf(db.State(), id);
      n := |mine|;
    }

    /** Retries a task: one being submitted is resumed; a cancelled one only by hand and once its old
        execution is confirmed dead; automatically no more than the maximum of attempts is made. */
    method Retry(world: World, id: nat, automatic: bool, confirmed: bool)
      returns (error: Option<TaskError>, ghost steps: seq<Transaction>)
      requires Linked(db.State())
      modifies db
      ensures Issues(world, old(db.State()), db.State(), steps)
      ensures Retries(world, old(db.State()), id, automatic, confirmed, steps, error)
    {
      steps := [];
      if id !in db.tasks {
        return Some(NoTask), steps;
      }
      var status := db.tasks[id].status;
      if status.Submitting? {
        error, steps := StartTask(world, id);
        return;
      }
      if !status.CanRetry() {
        return Some(NotRetryable), steps;
      }
      if status.Cancelled? && automatic {
        return Some(ManualOnly), steps;
      }
      if status.Cancelled? && db.tasks[id].current > 0 && !confirmed {
        return Some(NotConfirmed), steps;
      }
      if automatic {
        var n := CountAttempts(id);
        if n >= MAX_TASK_ATTEMPTS {
          steps := [Transaction.Block(id)];
          IssuesOne(world, db.State(), db.State(), [], steps[0]);
          db.Block(id);
          return None, steps;
        }
      }
      error, steps := PrepareAndStart(world, id);
    }

    method PrepareAndStart(world: World, id: nat) returns (error: Option<TaskError>, ghost steps: seq<Transaction>)
      requires Linked(db.State()) && id in db.tasks && db.tasks[id].status.CanRetry()
      modifies db
      ensures Issues(world, old(db.State()), db.State(), steps)
      ensures |steps| > 0 && steps[0] == Transaction.PrepareRetry(id)
      ensures Starts(world, Run(old(db.State()), steps[0]), id, steps[1..], error)
    {
      ghost var before := db.State();
      steps := [Transaction.PrepareRetry(id)];
      IssuesOne(world, before, before, [], steps[0]);
      PrepareKeepsLinked(before, id);
      var prepared := db.PrepareRetry(id);
      ghost var mid := db.State();
      ghost var more;
      error, more := StartTask(world, id);
      IssuesJoined(world, before, mid, db.State(), steps, more);
      assert (steps + more)[1..] == more;
      steps := steps + more;
    }

    /** Terminates a task for good. Compensations and successes are refused; when a live attempt was cancelled,
        or an earlier cancellation may not have reached etask, the physical cancellation is sent as well. */
    method TerminateTask(id: nat, reason: string)
      returns (error: Option<TaskError>, signal: Option<nat>, ghost steps: seq<Transaction>)
      modifies db
      ensures db.State() == RunAll(old(db.State()), steps)
      ensures error.Some? ==> db.State() == old(db.State()) && signal.None?
      ensures error == Some(BadReason) <==> Blank(reason) || |Trim(reason)| > 500
      ensures error == Some(NoTask) <==> !(Blank(reason) || |Trim(reason)| > 500) && id !in old(db.tasks)
      ensures error == Some(NotTerminable) <==>
        !(Blank(reason) || |Trim(reason)| > 500) && id in old(db.tasks) && !Terminable(old(db.State()), id)
      ensures error.None? ==> steps == [Transaction.TerminateTask(id)]
      ensures error.Some? ==> error.value.BadReason? || error.value.NoTask? || error.value.NotTerminable?
      ensures error.None? ==> signal == if CancelsCurrent(old(db.State()), id) then Some(old(db.tasks)[id].current) else None
    {
      steps := [];
      TrimEmpty(reason);
      if Trim(reason) == "" || |Trim(reason)| > 500 {
        return Some(BadReason), None, steps;
      }
      if id !in db.tasks {
        return Some(NoTask), None, steps;
      }
      if db.tasks[id].kind.Compensation? || db.tasks[id].status.Success? {
        return Some(NotTerminable), None, steps;
      }
      var r := db.TerminateTask(id);
      if r.Err? {
        return Some(NotTerminable), None, steps;
      }
      steps := [Transaction.TerminateTask(id)];
      var attempt := r.value;
      if attempt == 0 || !db.attempts[attempt].status.Cancelled? {
        return None, None, steps;
      }
      return None, Some(attempt), steps;
    }

    /** Stores an etask result; a succeeded compensation may complete the withdrawal of its instance, and is an error if
        the instance is not being withdrawn. */
    method CompleteAttempt(request: string, reported: AttemptStatus)
      returns (error: Option<TaskError>, ghost steps: seq<Transaction>)
      requires Linked(db.State())
      modifies db
      ensures db.State() == RunAll(old(db.State()), steps)
      ensures error == Some(BadRequest) <==> Blank(request)
      ensures !Blank(request) ==> (error == Some(BadStatus) <==> !reported.IsTerminal())
      ensures !Blank(request) && reported.IsTerminal() ==>
        (error == Some(NoAttempt) <==> !KnownRequest(old(db.State()), request))
      ensures if Stores(old(db.State()), request, reported)
        then 0 < |steps| <= 2 && steps[0] == Transaction.Complete(request, reported) else steps == []
      ensures |steps| == 2 <==> Stores(old(db.State()), request, reported) && CallsFinalization(old(db.State()), request, reported)
      ensures |steps| == 2 ==> steps[1] == Transaction.TryFinalize(FinalizedInstance(old(db.State()), request))
      ensures error.None? <==> CompletesQuietly(old(db.State()), request, reported)
      ensures |steps| == 2 && error.Some? ==> error.value.NotFinalized?
    {
      steps := [];
      if Blank(request) {
        return Some(BadRequest), steps;
      }
      if !reported.IsTerminal() {
        return Some(BadStatus), steps;
      }
      ghost var before := db.State();
      CompleteFacts(before, request, reported);
      var r := db.Complete(request, reported);
      if r.Err? {
        return Some(NoAttempt), steps;
      }
      steps := [Transaction.Complete(request, reported)];
      var attempt := db.attempts[r.value];
      if !attempt.status.Success? || !db.tasks[attempt.task].kind.Compensation? {
        return None, steps;
      }
      ghost var last := Transaction.TryFinalize(db.tasks[attempt.task].instance);
      error := Finalize(db.tasks[attempt.task].instance);
      RunTwo(before, steps[0], last);
      steps := [steps[0], last];
    }

    method Finalize(instance: int) returns (error: Option<TaskError>)
      modifies db
      ensures db.State() == Run(old(db.State()), Transaction.TryFinalize(instance))
      ensures error.None? <==> BeingWithdrawn(old(db.State()), instance)
      ensures error.Some? ==> error.value.NotFinalized?
    {
      var finalized := db.TryFinalize(instance);
      error := if finalized.Err? then Some(NotFinalized(finalized.error)) else None;
    }

    /** Asks etask about a running task and stores the result if there is one. */
    method ReconcileTask(id: nat, execution: Execution) returns (error: Option<TaskError>, ghost steps: seq<Transaction>)
      requires Consistent(db.State())
      modifies db
      ensures db.State() == RunAll(old(db.State()), steps)
      ensures !(Reconcilable(old(db.State()), id) && execution.Over?) ==> steps == []
      ensures error == Some(NoTask) <==> id !in old(db.tasks)
      ensures id in old(db.tasks) && !Reconcilable(old(db.State()), id) ==> error == None
      ensures Reconcilable(old(db.State()), id) && execution.Unreadable? ==> error == Some(EtaskUnreachable)
      ensures Reconcilable(old(db.State()), id) && execution.Unfinished? ==> error == None
      ensures Reconcilable(old(db.State()), id) && execution.Over? ==>
        |steps| > 0 && steps[0] == Transaction.Complete(CurrentRequest(old(db.State()), id), execution.status)
      ensures Reconcilable(old(db.State()), id) && execution.Over? ==>
        (error.None? <==> CompletesQuietly(old(db.State()), CurrentRequest(old(db.State()), id), execution.status))
    {
      steps := [];
      if id !in db.tasks {
        return Some(NoTask), steps;
      }
      assert TaskOk(db.State(), id);
      if !db.tasks[id].status.Running? || db.attempts[db.tasks[id].current].execution.None? {
        return None, steps;
      }
      if execution.Unreadable? {
        return Some(EtaskUnreachable), steps;
      }
      error := None;
      if execution.Over? {
        RequestFound(db.State(), db.tasks[id].current);
        error, steps := CompleteAttempt(db.attempts[db.tasks[id].current].request, execution.status);
      }
    }
  }

  /** The answer of etask about an execution; unfinished ones are left alone. */
  datatype Execution = Unreadable | Unfinished | Over(status: EndStatus)

  type EndStatus = s: AttemptStatus | s.IsTerminal() witness AttemptStatus.Success

  predicate Reconcilable(s: Store, id: nat) {
    && id in s.tasks && s.tasks[id].status.Running? && s.tasks[id].current in s.attempts
    && s.attempts[s.tasks[id].current].execution.Some?
  }

  function CurrentRequest(s: Store, id: nat): string
    requires Reconcilable(s, id)
  {
    s.attempts[s.tasks[id].current].request
  }

  lemma RequestFound(s: Store, a: nat)
    requires Consistent(s) && a in s.attempts
    ensures var request := s.attempts[a].request;
      !Blank(request) && a in WithRequest(s, request) && Lockable(s, MinOf(WithRequest(s, request)))
  {
    var request := s.attempts[a].request;
    assert request == RequestId(s.attempts[a].task, s.attempts[a].number);
    assert request[0] == 'e';
    assert a in WithRequest(s, request);
    assert AttemptOk(s, MinOf(WithRequest(s, request)));
  }

  /** Neither a compensation nor a success, and its current attempt is stored. */
  predicate Terminable(s: Store, id: nat) {
    && id in s.tasks && s.tasks[id].kind == Process && s.tasks[id].status != TaskStatus.Success
    && (s.tasks[id].current > 0 ==> s.tasks[id].current in s.attempts)
  }

  /** The current attempt is live, or has been cancelled before. */
  predicate CancelsCurrent(s: Store, id: nat) {
    && id in s.tasks && s.tasks[id].current > 0 && s.tasks[id].current in s.attempts
    && (Live(s.attempts[s.tasks[id].current]) || s.attempts[s.tasks[id].current].status == AttemptStatus.Cancelled)
  }

  /** What handing an attempt to etask issues and answers: nothing without a connection, a rejection, or a binding, which
      fails if the attempt is bound to something else. */
  ghost predicate Submits(world: World, s: Store, a: nat, steps: seq<Transaction>, error: Option<TaskError>) {
    a in s.attempts &&
    if !world.reachable then steps == [] && error == Some(EtaskUnreachable)
    else match world.etask(s.attempts[a].request)
      case Rejected => steps == [Transaction.RejectSubmission(a)] && error == Some(EtaskRefused)
      case Accepted(e) =>
        steps == [Transaction.BindExecution(a, e)] && error == if BindsTo(s, a, e) then None else Some(Conflict)
  }

  predicate BindsTo(s: Store, a: nat, execution: int) {
    Placed(s, a) && (s.attempts[a].execution == None || s.attempts[a].execution == Some(execution))
  }

  /** A begin, and the submission of the attempt it adds; a task that may not start now is left waiting without an error. */
  ghost predicate BeginsAndSubmits(world: World, s: Store, id: nat, steps: seq<Transaction>, error: Option<TaskError>) {
    && |steps| > 0 && steps[0] == Transaction.Begin(id) && id in s.tasks && s.tasks[id].instance in s.tickets
    && if MayStart(s, id) then Submits(world, Run(s, steps[0]), s.nextAttempt, steps[1..], error)
       else steps == [Transaction.Begin(id)] && error == None
  }

  /** What starting a task issues and answers: the submission once more of a live attempt that never reached etask, a
      block if its input cannot be prepared, or a begin with its submission. Everything else is left alone. */
  ghost predicate Starts(world: World, s: Store, id: nat, steps: seq<Transaction>, error: Option<TaskError>) {
    if id !in s.tasks then steps == [] && error == Some(NoTask)
    else if Executing(s.tasks[id]) then
      s.tasks[id].current in s.attempts &&
      if s.attempts[s.tasks[id].current].execution != None then steps == [] && error == None
      else Submits(world, s, s.tasks[id].current, steps, error)
    else if s.tasks[id].status != TaskStatus.Waiting then steps == [] && error == None
    else if !world.prepared then steps == [Transaction.Block(id)] && error == Some(NotPrepared)
    else BeginsAndSubmits(world, s, id, steps, error)
  }

  /** What a retry issues and answers: nothing for tasks that may not be retried, or not in this way; a block once the
      maximum of attempts is reached automatically; else a reset and what starting issues then. */
  ghost predicate Retries(world: World, s: Store, id: nat, automatic: bool, confirmed: bool,
                          steps: seq<Transaction>, error: Option<TaskError>)
  {
    if id !in s.tasks then steps == [] && error == Some(NoTask)
    else match s.tasks[id].status
      case Submitting => Starts(world, s, id, steps, error)
      case Cancelled =>
        if automatic then steps == [] && error == Some(ManualOnly)
        else if s.tasks[id].current > 0 && !confirmed then steps == [] && error == Some(NotConfirmed)
        else ResetsAndStarts(world, s, id, steps, error)
      case Failed => RetriesWithin(world, s, id, automatic, steps, error)
      case Blocked => RetriesWithin(world, s, id, automatic, steps, error)
      case _ => steps == [] && error == Some(NotRetryable)
  }

  ghost predicate RetriesWithin(world: World, s: Store, id: nat, automatic: bool, steps: seq<Transaction>, error: Option<TaskError>) {
    if automatic && |AttemptsOf(s, id)| >= 5 then steps == [Transaction.Block(id)] && error == None
    else ResetsAndStarts(world, s, id, steps, error)
  }

  ghost predicate ResetsAndStarts(world: World, s: Store, id: nat, steps: seq<Transaction>, error: Option<TaskError>) {
    |steps| > 0 && steps[0] == Transaction.PrepareRetry(id) && Starts(world, Run(s, steps[0]), id, steps[1..], error)
  }

  lemma PrepareKeepsLinked(s: Store, id: nat)
    requires Linked(s)
    ensures Linked(AutomationModel.PrepareRetry(s, id).store)
  {
    var s' := AutomationModel.PrepareRetry(s, id).store;
    forall t | t in s'.tasks ensures TaskOk(s', t) { assert TaskOk(s, t); }
    forall a | a in s'.attempts ensures AttemptOk(s', a) { assert AttemptOk(s, a); }
  }

  lemma {:induction false} IssuesJoined(world: World, s: Store, m: Store, s': Store, a: seq<Transaction>, b: seq<Transaction>)
    requires Issues(world, s, m, a) && Issues(world, m, s', b)
    ensures Issues(world, s, s', a + b)
    decreases |a|
  {
    if a == [] {
      assert a + b == b;
    } else {
      assert (a + b)[1..] == a[1..] + b;
      IssuesJoined(world, Run(s, a[0]), m, s', a[1..], b);
    }
  }

  lemma RunTwo(s: Store, a: Transaction, b: Transaction)
    ensures RunAll(s, [a, b]) == Run(Run(s, a), b)
  {
    assert [a, b][1..] == [b] && [b][1..] == [];
    assert RunAll(Run(s, a), [b]) == Run(Run(s, a), b);
  }

  /** The task whose attempt carries the request, once the result is stored. */
  function FinalizedInstance(s: Store, request: string): int
    requires WithRequest(s, request) != {} && Lockable(s, MinOf(WithRequest(s, request)))
  {
    s.tasks[s.attempts[MinOf(WithRequest(s, request))].task].instance
  }

  predicate KnownRequest(s: Store, request: string) {
    WithRequest(s, request) != {} && Lockable(s, MinOf(WithRequest(s, request)))
  }

  /** The stored attempt is a success of a compensation. */
  predicate CallsFinalization(s: Store, request: string, reported: AttemptStatus) {
    WithRequest(s, request) != {} &&
    var a := MinOf(WithRequest(s, request));
    Lockable(s, a) && s.tasks[s.attempts[a].task].kind.Compensation?
    && (if s.attempts[a].status.IsTerminal() then s.attempts[a].status.Success? else reported.Success?)
  }

  predicate Stores(s: Store, request: string, reported: AttemptStatus) {
    !Blank(request) && reported.IsTerminal() && KnownRequest(s, request)
  }

  /** The result is stored, and the finalisation it calls for, if any, is not refused. */
  predicate CompletesQuietly(s: Store, request: string, reported: AttemptStatus) {
    Stores(s, request, reported)
    && (CallsFinalization(s, request, reported) ==> BeingWithdrawn(s, FinalizedInstance(s, request)))
  }

  predicate BeingWithdrawn(s: Store, instance: int) {
    instance in s.tickets && (s.tickets[instance].Withdrawing? || s.tickets[instance].Withdrawn?)
  }

  /** Storing a result keeps the attempt's task, its kind and its instance. */
  ghost predicate StoredOn(s: Store, s': Store, request: string, reported: AttemptStatus, a: nat) {
    && WithRequest(s, request) != {} && a == MinOf(WithRequest(s, request)) && Lockable(s, a) && Lockable(s', a)
    && s'.attempts[a].task == s.attempts[a].task
    && s'.tasks[s.attempts[a].task].kind == s.tasks[s.attempts[a].task].kind
    && s'.tasks[s.attempts[a].task].instance == s.tasks[s.attempts[a].task].instance
    && (s'.attempts[a].status.Success? && s'.tasks[s.attempts[a].task].kind.Compensation? <==>
          CallsFinalization(s, request, reported))
  }

  lemma CompleteFacts(s: Store, request: string, reported: AttemptStatus)
    ensures var r := AutomationModel.Complete(s, request, reported);
      && (r.result.Ok? <==> KnownRequest(s, request)) && r.store.tickets == s.tickets
      && (r.result.Ok? ==> StoredOn(s, r.store, request, reported, r.result.value))
  {
  }
}
