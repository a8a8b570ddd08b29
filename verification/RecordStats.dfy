/** What the task records of one node and batch add up to. */
module RecordStats {
  import opened Prelude
  import opened EffectiveGraph

  datatype Record = Record(
    node: string, prevNode: string, batch: string, status: int, finished: int, cosigned: bool)

  datatype BatchStats = BatchStats(total: nat, passed: nat, pending: nat, systemPass: nat)

  type Stats = map<string, map<string, BatchStats>>

  const NOTHING := BatchStats(0, 0, 0, 0)

  function Counted(s: BatchStats, r: Record): BatchStats {
    var t := s.(total := s.total + 1);
    if r.finished == 0 then t.(pending := t.pending + 1)
    else if r.status == 1 then t.(passed := t.passed + 1)
    else if r.status == 3 then t.(systemPass := t.systemPass + 1)
    else t
  }

  predicate Of(r: Record, node: string, batch: string) { r.node == node && r.batch == batch }

  function Tally(records: seq<Record>, node: string, batch: string): BatchStats {
    if records == [] then NOTHING else
    var before := Tally(records[..|records| - 1], node, batch);
    var r := records[|records| - 1];
    if Of(r, node, batch) then Counted(before, r) else before
  }

  function Lookup(stats: Stats, node: string, batch: string): BatchStats {
    if node in stats && batch in stats[node] then stats[node][batch] else NOTHING
  }

  ghost predicate Tallied(stats: Stats, records: seq<Record>) {
    forall n, b :: Lookup(stats, n, b) == Tally(records, n, b)
  }

  /** Counts the records per node and batch. */
  method CountRecords(records: seq<Record>) returns (stats: Stats)
    ensures Tallied(stats, records)
  {
    stats := map[];
    for k := 0 to |records|
      invariant Tallied(stats, records[..k])
    {
      var r := records[k];
      assert records[..k + 1][..k] == records[..k];
      var batches := if r.node in stats then stats[r.node] else map[];
      var counted := if r.batch in batches then batches[r.batch] else NOTHING;
      assert counted == Lookup(stats, r.node, r.batch);
      stats := stats[r.node := batches[r.batch := Counted(counted, r)]];
    }
    assert records[..|records|] == records;
  }

  // ---------------------------------------------------------------- what the verdicts mean

  /** Some finished record of the batch was passed by the system. */
  predicate SystemPassed(records: seq<Record>, node: string, batch: string) {
    exists k :: 0 <= k < |records| && Of(records[k], node, batch) && records[k].finished != 0 && records[k].status == 3
  }

  predicate Pending(records: seq<Record>, node: string, batch: string) {
    exists k :: 0 <= k < |records| && Of(records[k], node, batch) && records[k].finished == 0
  }

  predicate AllPassed(records: seq<Record>, node: string, batch: string) {
    forall k | 0 <= k < |records| && Of(records[k], node, batch) :: records[k].finished != 0 && records[k].status == 1
  }

  predicate OtherBatchPending(records: seq<Record>, node: string, batch: string) {
    exists k :: 0 <= k < |records| && records[k].node == node && records[k].batch != batch && records[k].finished == 0
  }

  /** An open record of another batch that comes later in the list. */
  predicate LaterBatchPending(records: seq<Record>, k: nat)
    requires k < |records|
  {
    exists j :: k < j < |records| && records[j].node == records[k].node && records[j].batch != records[k].batch
      && records[j].finished == 0
  }

  /** Two records of a node are enough: the later, passed one is held back by the open batch before it, although no
      newer batch is open. */
  lemma OlderBatchCounts(m: NodeMap, older: Record, newer: Record)
    requires older.node == newer.node && older.batch != newer.batch && older.finished == 0
    requires newer.finished == 1 && newer.status == 1
    ensures var records := [older, newer];
      && EffectivelyPassed(m, records, newer) && OtherBatchPending(records, newer.node, newer.batch)
      && !LaterBatchPending(records, 1)
  {
    assert [older, newer][0] == older;
  }

  /** The record passed, and with countersigning, set on the node or on the record, so did every record of its batch. */
  predicate EffectivelyPassed(m: NodeMap, records: seq<Record>, r: Record) {
    && r.finished == 1 && r.status == 1
    && ((r.node in m && m[r.node].cosigned) || r.cosigned ==> AllPassed(records, r.node, r.batch))
  }

  lemma {:induction false} TallyMeaning(records: seq<Record>, node: string, batch: string)
    ensures var s := Tally(records, node, batch);
      && (s.systemPass > 0 <==> SystemPassed(records, node, batch))
      && (s.pending > 0 <==> Pending(records, node, batch))
      && (s.passed == s.total <==> AllPassed(records, node, batch))
      && s.passed + s.pending + s.systemPass <= s.total
  {
    if records != [] {
      var last := |records| - 1;
      TallyMeaning(records[..last], node, batch);
      assert records == records[..last] + [records[last]];
      MeaningAppended(records[..last], records[last], node, batch);
    }
  }

  lemma MeaningAppended(records: seq<Record>, r: Record, node: string, batch: string)
    ensures SystemPassed(records + [r], node, batch) <==>
      SystemPassed(records, node, batch) || (Of(r, node, batch) && r.finished != 0 && r.status == 3)
    ensures Pending(records + [r], node, batch) <==>
      Pending(records, node, batch) || (Of(r, node, batch) && r.finished == 0)
    ensures AllPassed(records + [r], node, batch) <==>
      AllPassed(records, node, batch) && (Of(r, node, batch) ==> r.finished != 0 && r.status == 1)
  {
    var more := records + [r];
    assert more[|records|] == r && forall k | 0 <= k < |records| :: more[k] == records[k];
    if SystemPassed(records, node, batch) {
      var k :| 0 <= k < |records| && Of(records[k], node, batch) && records[k].finished != 0 && records[k].status == 3;
      assert Of(more[k], node, batch);
    }
    if Pending(records, node, batch) {
      var k :| 0 <= k < |records| && Of(records[k], node, batch) && records[k].finished == 0;
      assert Of(more[k], node, batch);
    }
    if AllPassed(more, node, batch) {
      forall k | 0 <= k < |records| && Of(records[k], node, batch)
        ensures records[k].finished != 0 && records[k].status == 1 { assert Of(more[k], node, batch); }
    }
  }

  // ---------------------------------------------------------------- the analyzer

  /** Answers the three questions about a batch from the counts. */
  class StatusAnalyzer {
    const stats: Stats
    const nodes: NodeMap
    ghost const records: seq<Record>

    ghost predicate Valid() { Tallied(stats, records) }

    constructor (m: NodeMap, records: seq<Record>)
      ensures Valid() && this.records == records && nodes == m
    {
      var counts := CountRecords(records);
      stats, nodes, this.records := counts, m, records;
    }

    method IsBatchTainted(node: string, batch: string) returns (r: bool)
      requires Valid()
      ensures r <==> SystemPassed(records, node, batch)
    {
      TallyMeaning(records, node, batch);
      r := Lookup(stats, node, batch).systemPass > 0;
    }

    method IsBatchEffectivelyPassed(t: Record) returns (r: bool)
      requires Valid() && t in records
      ensures r <==> EffectivelyPassed(nodes, records, t)
    {
      if t.finished != 1 || t.status != 1 {
        return false;
      }
      var cosigned := t.cosigned;
      if t.node in nodes && nodes[t.node].cosigned {
        cosigned := true;
      }
      if cosigned {
        TallyMeaning(records, t.node, t.batch);
        var s := Lookup(stats, t.node, t.batch);
        if s.passed < s.total {
          return false;
        }
      }
      return true;
    }

    /** The name speaks of newer batches; any other batch with an open record counts. */
    method HasNewerBatchPending(node: string, batch: string) returns (r: bool)
      requires Valid()
      ensures r <==> OtherBatchPending(records, node, batch)
    {
      var batches := if node in stats then stats[node] else map[];
      r := exists b | b in batches :: b != batch && batches[b].pending > 0;
      if r {
        var b :| b in batches && b != batch && batches[b].pending > 0;
        assert Lookup(stats, node, b).pending > 0;
        TallyMeaning(records, node, b);
      }
      if OtherBatchPending(records, node, batch) {
        ghost var k :| 0 <= k < |records| && records[k].node == node && records[k].batch != batch && records[k].finished == 0;
        TallyMeaning(records, node, records[k].batch);
        assert Of(records[k], node, records[k].batch);
        assert Lookup(stats, node, records[k].batch).pending > 0;
      }
    }
  }
}
