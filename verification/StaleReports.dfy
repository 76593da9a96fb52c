// Reports and expectations together: devices report while the consumer group goes on, so a stored verdict
// may be older than the expectations that /stats compares with.
module StaleReports {
  import opened Wrappers
  import opened Expectations
  import opened ConsumerGroup
  import opened GroupSafety
  import opened Verdicts
  import RolloutPipeline
  import PolicyHistory
  import RS = ReportStore

  // The row was evaluated against the table as it was at some moment of a run that has led to s.
  ghost predicate JudgedBefore(row: DeviceRow, s: State) {
    exists b: State, ls :: Run(b, ls, s) && EvaluatedAgainst(row, b.table)
  }

  ghost function TableThen(row: DeviceRow, s: State): (t: Table)
    requires JudgedBefore(row, s)
    ensures NoOlderThan(s.table, t) && EvaluatedAgainst(row, t)
  {
    var b: State, ls :| Run(b, ls, s) && EvaluatedAgainst(row, b.table);
    RunPrecedes(b, ls, s);
    b.table
  }

  // In any run of the report store, with each device's latest report evaluated at any earlier moment of the
  // group's run: what /stats counts as behind is at least what holds the finding, for every active policy.
  lemma StatsNeverUnderstate(steps: seq<RS.Step>, store: RS.Store, s: State, id: string)
    requires RS.Run(RS.Empty(), steps, store)
    requires forall k: nat :: RS.Latest(store, k) ==> JudgedBefore(RS.RowAfter(store.committed[k]), s)
    requires id in s.table && s.table[id].active
    ensures var g, devices := s.table[id].content.targetGroup, RS.Rows(store);
      && Drifting(devices, id, g) <= InGroup(devices, g) - Converged(devices, id, s.table[id])
      && |Drifting(devices, id, g)| <= |InGroup(devices, g)| - |Converged(devices, id, s.table[id])|
  {
    var devices := RS.Rows(store);
    RS.RowsAreLatest(steps, store);
    forall d | d in devices ensures JudgedBefore(devices[d], s) {
      var k: nat :| RS.Latest(store, k) && store.committed[k].deviceId == d;
    }
    var seen := map d | d in devices :: TableThen(devices[d], s);
    StaleReportsUnderstate(s.table, devices, seen, id);
  }

  // A device that reports nothing for an active policy of its group is found behind on it, and so never
  // compliant: versions of announced policies start at 1.
  lemma UnreportedNeverCompliant(s: RolloutPipeline.System, row: DeviceRow, r: Report, id: string)
    requires RolloutPipeline.Arises(s) && Judged(row, r, s.group.table)
    requires id in s.group.table && s.group.table[id].active
    requires s.group.table[id].content.targetGroup == r.deviceGroup && id !in r.applied
    ensures PolicyDrift(id) in row.findings && !row.compliant
  {
    PolicyHistory.ExpectedFrom1(s, id);
    DriftIff(row, r, s.group.table, id);
  }

  // Nor does /stats ever count it as converged.
  lemma UnreportedNeverConverged(s: RolloutPipeline.System, steps: seq<RS.Step>, store: RS.Store, k: nat, id: string)
    requires RolloutPipeline.Arises(s) && id in s.group.table
    requires RS.Run(RS.Empty(), steps, store) && RS.Latest(store, k) && id !in store.committed[k].applied
    ensures var row := s.group.table[id];
      store.committed[k].deviceId !in RS.UpToDate(store, row.content.targetGroup, id, row.version)
  {
    PolicyHistory.ExpectedFrom1(s, id);
    forall j: nat | RS.Latest(store, j) && store.committed[j].deviceId == store.committed[k].deviceId ensures j == k {
    }
  }
}
