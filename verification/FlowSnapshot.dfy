/** States of a flow instance and how operations may change them. */
module FlowSnapshot {
  import opened Prelude
  import opened FlowPlan
  import opened FlowJoin

  type Variables = map<string, string>

  datatype InstanceStatus = Running | Finished | Turned | Withdrawn

  datatype Snapshot = Snapshot(
    tasks: seq<FlowTask>, status: InstanceStatus, currentNode: string, variables: Variables, nextId: nat)

  /** An instance that has not been started. */
  const NEW := Snapshot([], Running, "", map[], 0)

  // ---------------------------------------------------------------- what holds in every state

  ghost predicate FreshIds(s: Snapshot) {
    && (forall i | 0 <= i < |s.tasks| :: s.tasks[i].id < s.nextId)
    && (forall i, j | 0 <= i < j < |s.tasks| :: s.tasks[i].id != s.tasks[j].id)
  }

  /** Pending tasks carry the highest batch code of the instance. */
  ghost predicate PendingAtTop(tasks: seq<FlowTask>) {
    forall i, j | 0 <= i < |tasks| && 0 <= j < |tasks| && tasks[i].status.Pending? :: tasks[j].batch <= tasks[i].batch
  }

  ghost predicate NonePending(tasks: seq<FlowTask>) {
    forall i | 0 <= i < |tasks| :: !tasks[i].status.Pending?
  }

  ghost predicate Sound(s: Snapshot) {
    && FreshIds(s) && PendingAtTop(s.tasks)
    && (forall i | 0 <= i < |s.tasks| :: s.tasks[i].batch >= 1)
    && (s.status.Turned? || s.status.Withdrawn? ==> NonePending(s.tasks))
  }

  // ---------------------------------------------------------------- how operations change tasks

  function Decide(tasks: seq<FlowTask>, i: nat, status: TaskStatus): seq<FlowTask>
    requires i < |tasks|
  {
    tasks[i := tasks[i].(status := status)]
  }

  /** Gives all pending tasks of the selection a new status. */
  function MarkPending(tasks: seq<FlowTask>, which: FlowTask -> bool, status: TaskStatus): (r: seq<FlowTask>)
    ensures |r| == |tasks|
    ensures forall i | 0 <= i < |r| ::
      r[i] == if tasks[i].status.Pending? && which(tasks[i]) then tasks[i].(status := status) else tasks[i]
  {
    seq(|tasks|, i requires 0 <= i < |tasks| =>
      if tasks[i].status.Pending? && which(tasks[i]) then tasks[i].(status := status) else tasks[i])
  }

  /** The batch code to count on from: the highest, at least 1. */
  function MaxBatchCode(tasks: seq<FlowTask>): (b: int)
    ensures b >= 1 && forall i | 0 <= i < |tasks| :: tasks[i].batch <= b
    ensures b == 1 || exists i :: 0 <= i < |tasks| && tasks[i].batch == b
  {
    if tasks == [] then 1 else
    var rest, last := MaxBatchCode(tasks[..|tasks| - 1]), tasks[|tasks| - 1];
    assert tasks == tasks[..|tasks| - 1] + [last];
    if last.batch > rest then last.batch else rest
  }

  function MakeTasks(node: string, sign: SignRule, batch: int, people: seq<string>, status: TaskStatus, nextId: nat)
    : (r: seq<FlowTask>)
    ensures |r| == |people|
    ensures forall k | 0 <= k < |r| :: r[k] == FlowTask(nextId + k, node, batch, people[k], sign, status)
  {
    seq(|people|, k requires 0 <= k < |people| => FlowTask(nextId + k, node, batch, people[k], sign, status))
  }

  /** Work done while moving on within one batch: tasks are added, none is changed. */
  ghost predicate Grows(a: Snapshot, b: Snapshot, batch: int) {
    && |a.tasks| <= |b.tasks| && b.tasks[..|a.tasks|] == a.tasks && a.nextId <= b.nextId
    && (forall i | |a.tasks| <= i < |b.tasks| :: b.tasks[i].batch == batch && b.tasks[i].id >= a.nextId
          && (b.tasks[i].status.Pending? || b.tasks[i].status.Passed? || b.tasks[i].status.Skipped?))
    && (FreshIds(a) ==> FreshIds(b))
    && (b.status == a.status || b.status == Finished)
  }

  lemma GrowsTransitive(a: Snapshot, b: Snapshot, c: Snapshot, batch: int)
    requires Grows(a, b, batch) && Grows(b, c, batch)
    ensures Grows(a, c, batch)
  {
    assert c.tasks[..|a.tasks|] == c.tasks[..|b.tasks|][..|a.tasks|];
    forall i | |a.tasks| <= i < |c.tasks|
      ensures c.tasks[i].batch == batch && c.tasks[i].id >= a.nextId
      ensures c.tasks[i].status.Pending? || c.tasks[i].status.Passed? || c.tasks[i].status.Skipped?
    {
      if i < |b.tasks| { assert c.tasks[i] == c.tasks[..|b.tasks|][i]; }
    }
  }

  lemma Appended(a: Snapshot, b: Snapshot, node: string, sign: SignRule, batch: int, people: seq<string>, status: TaskStatus)
    requires b.tasks == a.tasks + MakeTasks(node, sign, batch, people, status, a.nextId)
    requires b.nextId == a.nextId + |people| && (b.status == a.status || b.status == Finished)
    requires status.Pending? || status.Passed? || status.Skipped?
    ensures Grows(a, b, batch)
  {
  }

  lemma GrowsKeepsSound(a: Snapshot, b: Snapshot, batch: int)
    requires Grows(a, b, batch) && FreshIds(a) && batch >= 1 && a.status.Running?
    requires forall i | 0 <= i < |a.tasks| :: 1 <= a.tasks[i].batch <= batch
    requires forall i | 0 <= i < |a.tasks| && a.tasks[i].status.Pending? :: a.tasks[i].batch == batch
    ensures Sound(b)
  {
    forall i | 0 <= i < |b.tasks|
      ensures 1 <= b.tasks[i].batch <= batch && (b.tasks[i].status.Pending? ==> b.tasks[i].batch == batch)
    {
      if i < |a.tasks| { assert b.tasks[i] == b.tasks[..|a.tasks|][i]; }
    }
  }

  // ---------------------------------------------------------------- one operation

  /** Tasks are never removed or exchanged, and a decided task never changes. */
  ghost predicate TasksKept(a: seq<FlowTask>, b: seq<FlowTask>) {
    && |a| <= |b|
    && forall i | 0 <= i < |a| :: b[i] == a[i] || (a[i].status.Pending? && b[i] == a[i].(status := b[i].status))
  }

  /** What every operation guarantees. */
  ghost predicate Evolves(a: Snapshot, b: Snapshot) {
    && (Sound(a) ==> Sound(b)) && TasksKept(a.tasks, b.tasks)
    && (!a.status.Running? ==> b == a)
  }
}
