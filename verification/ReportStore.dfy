// Ingestion of reports by many replicas: the table with one row per device, the append-only log of
// reports, and the transactions that write both. A transaction locks its device's row from the upsert
// until it ends; ids of log rows are drawn from a sequence when the row is inserted.
module ReportStore {
  import opened Wrappers
  import Expectations
  import opened Verdicts

  // What one evaluation of a report decided.
  datatype Decision = Decision(deviceGroup: string, findings: seq<Finding>, compliant: bool)

  datatype Current = Current(applied: map<string, int>, decision: Decision, reportCount: nat)

  datatype LogRow = LogRow(deviceId: string, decision: Decision)

  datatype Tx = Tx(deviceId: string, applied: map<string, int>, decision: Decision, logged: Option<nat>)

  // Rows removed by pruning are remembered in `pruned`, and transactions that committed in `committed`.
  datatype Store = Store(devices: map<string, Current>, log: map<nat, LogRow>, pruned: map<nat, LogRow>,
                         nextId: nat, open: map<nat, Tx>, committed: seq<Tx>)

  datatype Step =
    | Upsert(tx: nat, deviceId: string, applied: map<string, int>, decision: Decision)
    | Insert(tx: nat)
    | Commit(tx: nat)
    | Abort(tx: nat)
    | Prune(retention: nat)

  function Empty(): Store {
    Store(map[], map[], map[], 0, map[], [])
  }

  predicate Locked(s: Store, deviceId: string) {
    exists tx :: tx in s.open && s.open[tx].deviceId == deviceId
  }

  predicate Enabled(s: Store, a: Step) {
    match a
    case Upsert(tx, deviceId, _, _) => tx !in s.open && !Locked(s, deviceId)
    case Insert(tx) => tx in s.open && s.open[tx].logged.None?
    case Commit(tx) => tx in s.open && s.open[tx].logged.Some?
    case Abort(tx) => tx in s.open
    case Prune(_) => true
  }

  // Everything but the newest `retention` rows.
  function Doomed(log: map<nat, LogRow>, retention: nat): set<nat> {
    set id | id in log && |Newer(log, id)| >= retention
  }

  function Newer(log: map<nat, LogRow>, id: nat): set<nat> {
    set k | k in log && id < k
  }

  function Next(s: Store, a: Step): Store
    requires Enabled(s, a)
  {
    match a
    case Upsert(tx, deviceId, applied, decision) =>
      s.(open := s.open[tx := Tx(deviceId, applied, decision, None)])
    case Insert(tx) => s.(open := s.open[tx := s.open[tx].(logged := Some(s.nextId))], nextId := s.nextId + 1)
    case Commit(tx) =>
      var t := s.open[tx];
      var count := if t.deviceId in s.devices then s.devices[t.deviceId].reportCount + 1 else 1;
      s.(devices := s.devices[t.deviceId := Current(t.applied, t.decision, count)],
         log := s.log[t.logged.value := LogRow(t.deviceId, t.decision)],
         open := s.open - {tx}, committed := s.committed + [t])
    case Abort(tx) => s.(open := s.open - {tx})
    case Prune(retention) =>
      var doomed := Doomed(s.log, retention);
      s.(log := s.log - doomed, pruned := s.pruned + (map id | id in doomed :: s.log[id]))
  }

  ghost predicate Run(s: Store, steps: seq<Step>, t: Store)
    decreases |steps|
  {
    if steps == [] then s == t else Enabled(s, steps[0]) && Run(Next(s, steps[0]), steps[1..], t)
  }

  // ----- Ingestion as the program does it -----

  // How the transaction ends: it commits, it is rolled back, or it commits although the replica does not
  // hear so.
  datatype Ending = Commits | RollsBack | Unconfirmed

  // One replica at the shared database; `reports` is its in-memory counter.
  class Replica {
    var devices: map<string, Current>
    var log: map<nat, LogRow>
    ghost var pruned: map<nat, LogRow>
    var nextId: nat
    ghost var open: map<nat, Tx>
    ghost var committed: seq<Tx>
    var reports: nat

    ghost function View(): Store
      reads this
    {
      Store(devices, log, pruned, nextId, open, committed)
    }

    constructor ()
      ensures View() == Empty() && reports == 0
    {
      devices, log, pruned, nextId, open, committed, reports := map[], map[], map[], 0, map[], [], 0;
    }

    // Writes the device row and the log row in one transaction. The id drawn for the log row is used up even
    // when the transaction is rolled back.
    method Write(deviceId: string, applied: map<string, int>, decision: Decision, ending: Ending, ghost tx: nat)
      requires tx !in open && !Locked(View(), deviceId)
      modifies this
      ensures View() == if ending.RollsBack? then RolledBack(old(View()), tx, deviceId, applied, decision)
                        else Stored(old(View()), tx, deviceId, applied, decision)
      ensures reports == old(reports)
    {
      WrittenAtOnce(View(), tx, deviceId, applied, decision);
      var id := nextId;
      nextId := nextId + 1;
      if !ending.RollsBack? {
        var count := if deviceId in devices then devices[deviceId].reportCount + 1 else 1;
        devices := devices[deviceId := Current(applied, decision, count)];
        log := log[id := LogRow(deviceId, decision)];
        committed := committed + [Tx(deviceId, applied, decision, Some(id))];
      }
    }

    // Decides on a report and stores the decision. An error goes to the caller, and counts nothing.
    method IngestReport(r: Report, names: seq<string>, due: seq<Due>, ending: Ending,
                        ghost t: Expectations.Table, ghost tx: nat)
      returns (accepted: Option<Decision>, ghost judged: Decision)
      requires ListsChecks(names, r.checks) && ListsDue(due, t, r.deviceGroup)
      requires tx !in open && !Locked(View(), r.deviceId)
      modifies this
      ensures Judged(RowOf(r.applied, judged), r, t)
      ensures accepted == if ending.Commits? then Some(judged) else None
      ensures View() == if ending.RollsBack? then RolledBack(old(View()), tx, r.deviceId, r.applied, judged)
                        else Stored(old(View()), tx, r.deviceId, r.applied, judged)
      ensures reports == old(reports) + (if ending.Commits? then 1 else 0)
    {
      var findings, compliant := Evaluate(r, names, due, t);
      var decision := Decision(r.deviceGroup, findings, compliant);
      judged := decision;
      Write(r.deviceId, r.applied, decision, ending, tx);
      if !ending.Commits? {
        return None, judged;
      }
      reports := reports + 1;
      return Some(decision), judged;
    }
  }

  // The steps of a transaction that nothing interrupts, up to its end.
  function Inserted(s: Store, tx: nat, deviceId: string, applied: map<string, int>, decision: Decision): (r: Store)
    requires tx !in s.open && !Locked(s, deviceId)
    ensures Enabled(r, Commit(tx)) && Enabled(r, Abort(tx))
  {
    Next(Next(s, Upsert(tx, deviceId, applied, decision)), Insert(tx))
  }

  function Stored(s: Store, tx: nat, deviceId: string, applied: map<string, int>, decision: Decision): Store
    requires tx !in s.open && !Locked(s, deviceId)
  {
    Next(Inserted(s, tx, deviceId, applied, decision), Commit(tx))
  }

  function RolledBack(s: Store, tx: nat, deviceId: string, applied: map<string, int>, decision: Decision): Store
    requires tx !in s.open && !Locked(s, deviceId)
  {
    Next(Inserted(s, tx, deviceId, applied, decision), Abort(tx))
  }

  lemma WrittenAtOnce(s: Store, tx: nat, deviceId: string, applied: map<string, int>, decision: Decision)
    requires tx !in s.open && !Locked(s, deviceId)
    ensures RolledBack(s, tx, deviceId, applied, decision) == s.(nextId := s.nextId + 1)
    ensures
      var count := if deviceId in s.devices then s.devices[deviceId].reportCount + 1 else 1;
      Stored(s, tx, deviceId, applied, decision) ==
      s.(devices := s.devices[deviceId := Current(applied, decision, count)],
         log := s.log[s.nextId := LogRow(deviceId, decision)],
         nextId := s.nextId + 1,
         committed := s.committed + [Tx(deviceId, applied, decision, Some(s.nextId))])
  {
    var x := Tx(deviceId, applied, decision, None);
    assert s.open[tx := x][tx := x.(logged := Some(s.nextId))] - {tx} == s.open;
  }

  // ----- The fold of the log -----

  // The committed log rows of a device, whether or not they have been pruned since.
  function RowsOf(s: Store, deviceId: string): set<nat> {
    set id | id in s.log.Keys + s.pruned.Keys && RowAt(s, id).deviceId == deviceId
  }

  function RowAt(s: Store, id: nat): LogRow
    requires id in s.log.Keys + s.pruned.Keys
  {
    if id in s.log then s.log[id] else s.pruned[id]
  }

  ghost predicate Last(ids: set<nat>, id: nat) {
    id in ids && forall k :: k in ids ==> k <= id
  }

  ghost predicate DeviceInv(s: Store, deviceId: string) {
    && (deviceId in s.devices <==> RowsOf(s, deviceId) != {})
    && (deviceId in s.devices ==>
          && s.devices[deviceId].reportCount == |RowsOf(s, deviceId)|
          && forall id :: Last(RowsOf(s, deviceId), id) ==> RowAt(s, id).decision == s.devices[deviceId].decision)
  }

  ghost predicate LogInv(s: Store) {
    && s.log.Keys !! s.pruned.Keys
    && (forall id :: id in s.log.Keys + s.pruned.Keys ==> id < s.nextId)
    && (forall i, k :: i in s.pruned && k in s.log && s.pruned[i].deviceId == s.log[k].deviceId ==> i < k)
  }

  predicate Apart(x: Tx, y: Tx) {
    x.deviceId != y.deviceId && (x.logged.Some? ==> x.logged != y.logged)
  }

  // The row that the transaction has inserted is newer than its device's committed ones.
  ghost predicate Ahead(s: Store, x: Tx) {
    x.logged.Some? ==>
      && x.logged.value < s.nextId
      && x.logged.value !in s.log.Keys + s.pruned.Keys
      && forall id :: id in RowsOf(s, x.deviceId) ==> id < x.logged.value
  }

  // No two open transactions write the same device or the same log row.
  ghost predicate TxInv(s: Store) {
    && (forall t, u :: t in s.open && u in s.open && t != u ==> Apart(s.open[t], s.open[u]))
    && (forall t :: t in s.open ==> Ahead(s, s.open[t]))
  }

  ghost predicate Inv(s: Store) {
    LogInv(s) && TxInv(s) && forall d :: DeviceInv(s, d)
  }

  lemma RowsAfterCommit(s: Store, tx: nat, d: string)
    requires LogInv(s) && TxInv(s) && Enabled(s, Commit(tx))
    ensures RowsOf(Next(s, Commit(tx)), d)
            == RowsOf(s, d) + (if d == s.open[tx].deviceId then {s.open[tx].logged.value} else {})
    ensures forall id :: id in RowsOf(s, d) ==> RowAt(Next(s, Commit(tx)), id) == RowAt(s, id)
  {
  }

  lemma CommitOwnDevice(s: Store, tx: nat)
    requires LogInv(s) && TxInv(s) && Enabled(s, Commit(tx)) && DeviceInv(s, s.open[tx].deviceId)
    ensures DeviceInv(Next(s, Commit(tx)), s.open[tx].deviceId)
  {
    var t, d, id := Next(s, Commit(tx)), s.open[tx].deviceId, s.open[tx].logged.value;
    RowsAfterCommit(s, tx, d);
    assert id !in RowsOf(s, d) && Last(RowsOf(t, d), id);
    if d !in s.devices { assert RowsOf(t, d) == {id}; }
  }

  lemma CommitOtherDevice(s: Store, tx: nat, d: string)
    requires LogInv(s) && TxInv(s) && Enabled(s, Commit(tx)) && DeviceInv(s, d) && d != s.open[tx].deviceId
    ensures DeviceInv(Next(s, Commit(tx)), d)
  {
    RowsAfterCommit(s, tx, d);
    assert RowsOf(Next(s, Commit(tx)), d) == RowsOf(s, d);
  }

  lemma CommitInv(s: Store, tx: nat)
    requires Inv(s) && Enabled(s, Commit(tx))
    ensures Inv(Next(s, Commit(tx)))
  {
    var t := Next(s, Commit(tx));
    forall d ensures DeviceInv(t, d) {
      assert DeviceInv(s, d);
      if d == s.open[tx].deviceId { CommitOwnDevice(s, tx); } else { CommitOtherDevice(s, tx, d); }
    }
    forall u | u in t.open && t.open[u].logged.Some?
      ensures forall id :: id in RowsOf(t, t.open[u].deviceId) ==> id < t.open[u].logged.value
    {
      RowsAfterCommit(s, tx, t.open[u].deviceId);
    }
    CommitLog(s, tx);
  }

  lemma CommitLog(s: Store, tx: nat)
    requires LogInv(s) && TxInv(s) && Enabled(s, Commit(tx))
    ensures LogInv(Next(s, Commit(tx)))
  {
    var t, x := Next(s, Commit(tx)), s.open[tx];
    forall i, k | i in t.pruned && k in t.log && t.pruned[i].deviceId == t.log[k].deviceId ensures i < k {
      if k == x.logged.value { assert i in RowsOf(s, x.deviceId); }
    }
  }

  lemma RowsAfterPrune(s: Store, retention: nat, d: string)
    requires LogInv(s)
    ensures var t := Next(s, Prune(retention));
      && RowsOf(t, d) == RowsOf(s, d)
      && t.log.Keys + t.pruned.Keys == s.log.Keys + s.pruned.Keys
      && forall id :: id in RowsOf(s, d) ==> RowAt(t, id) == RowAt(s, id)
  {
    var t := Next(s, Prune(retention));
    assert t.log.Keys + t.pruned.Keys == s.log.Keys + s.pruned.Keys;
  }

  // The ids with fewer than `retention` greater ones.
  function Newest(ids: set<nat>, retention: nat): set<nat> {
    set id | id in ids && |Above(ids, id)| < retention
  }

  function Above(ids: set<nat>, id: nat): set<nat> {
    set k | k in ids && id < k
  }

  lemma {:induction false} Least(ids: set<nat>) returns (m: nat)
    requires ids != {}
    ensures m in ids && forall k :: k in ids ==> m <= k
    decreases |ids|
  {
    var some: nat :| some in ids;
    m := some;
    if ids != {some} {
      var k := Least(ids - {some});
      m := if k < some then k else some;
      forall i | i in ids ensures m <= i {
        assert i == some || i in ids - {some};
      }
    }
  }

  lemma {:induction false} NewestSize(ids: set<nat>, retention: nat)
    ensures |Newest(ids, retention)| == if |ids| < retention then |ids| else retention
    decreases |ids|
  {
    if ids == {} {
      assert Newest(ids, retention) == {};
    } else {
      var m := Least(ids);
      var rest := ids - {m};
      NewestSize(rest, retention);
      assert Above(ids, m) == rest;
      forall id | id in rest ensures Above(ids, id) == Above(rest, id) {
      }
      assert Newest(ids, retention) == Newest(rest, retention) + (if |rest| < retention then {m} else {});
    }
  }

  // Pruning leaves exactly the newest rows, as many as it is told to retain or all if there are fewer, and
  // touches nothing else.
  lemma PruneKeepsNewest(s: Store, retention: nat)
    ensures var t := Next(s, Prune(retention));
      && (forall id :: id in t.log ==> id in s.log && t.log[id] == s.log[id])
      && |t.log| == (if |s.log| < retention then |s.log| else retention)
      && (forall i, k :: i in s.log && i !in t.log && k in t.log ==> i < k)
      && t.devices == s.devices && t.open == s.open && t.nextId == s.nextId
  {
    var t := Next(s, Prune(retention));
    RemainingAreNewest(s.log, retention);
    NewestSize(s.log.Keys, retention);
    assert t.log.Keys == s.log.Keys - Doomed(s.log, retention);
    assert |t.log| == |t.log.Keys| && |s.log| == |s.log.Keys|;
  }

  lemma RemainingAreNewest(log: map<nat, LogRow>, retention: nat)
    ensures log.Keys - Doomed(log, retention) == Newest(log.Keys, retention)
    ensures forall i, k :: i in Doomed(log, retention) && k in log && k !in Doomed(log, retention) ==> i < k
  {
    forall id ensures Newer(log, id) == Above(log.Keys, id) {
    }
    forall i, k | i in Doomed(log, retention) && k in log && k !in Doomed(log, retention) ensures i < k {
      if k < i { NewerShrinks(log, i, k); }
    }
  }

  lemma NewerShrinks(log: map<nat, LogRow>, i: nat, k: nat)
    requires i in log && k in log && k < i
    ensures |Newer(log, i)| < |Newer(log, k)|
  {
    assert Newer(log, k) == (Newer(log, k) - Newer(log, i)) + Newer(log, i);
    assert i in Newer(log, k) - Newer(log, i);
  }

  lemma PruneInv(s: Store, retention: nat)
    requires Inv(s)
    ensures Inv(Next(s, Prune(retention)))
  {
    var t := Next(s, Prune(retention));
    forall d ensures DeviceInv(t, d) {
      RowsAfterPrune(s, retention, d);
      assert DeviceInv(s, d);
    }
    forall i, k | i in t.pruned && k in t.log && t.pruned[i].deviceId == t.log[k].deviceId ensures i < k {
      if i in s.log && k < i { NewerShrinks(s.log, i, k); }
    }
    forall u | u in t.open && t.open[u].logged.Some?
      ensures forall id :: id in RowsOf(t, t.open[u].deviceId) ==> id < t.open[u].logged.value
    {
      RowsAfterPrune(s, retention, t.open[u].deviceId);
    }
    RowsAfterPrune(s, retention, "");
  }

  lemma SameRows(s: Store, t: Store, d: string)
    requires t.log == s.log && t.pruned == s.pruned && t.devices == s.devices && DeviceInv(s, d)
    ensures RowsOf(t, d) == RowsOf(s, d) && DeviceInv(t, d)
  {
    assert RowsOf(t, d) == RowsOf(s, d);
  }

  lemma OpenInv(s: Store, a: Step)
    requires Inv(s) && Enabled(s, a) && !a.Commit? && !a.Prune?
    ensures Inv(Next(s, a))
  {
    var t := Next(s, a);
    forall d ensures RowsOf(t, d) == RowsOf(s, d) && DeviceInv(t, d) {
      assert DeviceInv(s, d);
      SameRows(s, t, d);
    }
    OpenTxInv(s, a);
  }

  lemma AheadKept(s: Store, t: Store, x: Tx)
    requires t.log == s.log && t.pruned == s.pruned && s.nextId <= t.nextId && Ahead(s, x)
    ensures Ahead(t, x)
  {
    assert RowsOf(t, x.deviceId) == RowsOf(s, x.deviceId);
  }

  lemma InsertedAhead(s: Store, x: Tx)
    requires LogInv(s)
    ensures Ahead(s.(nextId := s.nextId + 1), x.(logged := Some(s.nextId)))
  {
    var t := s.(nextId := s.nextId + 1);
    assert RowsOf(t, x.deviceId) == RowsOf(s, x.deviceId);
  }

  lemma InsertApart(s: Store, x: Tx, y: Tx)
    requires Ahead(s, x) && Ahead(s, y) && Apart(x, y) && Apart(y, x)
    ensures Apart(x.(logged := Some(s.nextId)), y) && Apart(y, x.(logged := Some(s.nextId)))
  {
  }

  lemma OpenTxInv(s: Store, a: Step)
    requires LogInv(s) && TxInv(s) && Enabled(s, a) && !a.Commit? && !a.Prune?
    ensures TxInv(Next(s, a))
  {
    var t := Next(s, a);
    if a.Insert? { InsertedAhead(s, s.open[a.tx]); }
    hide RowsOf, LogInv;
    forall u | u in t.open ensures Ahead(t, t.open[u]) {
      if u in s.open && t.open[u] == s.open[u] {
        AheadKept(s, t, s.open[u]);
      } else if a.Insert? {
        AheadKept(s.(nextId := s.nextId + 1), t, t.open[u]);
      }
    }
    if a.Insert? {
      forall u | u in s.open && u != a.tx ensures Apart(t.open[a.tx], t.open[u]) && Apart(t.open[u], t.open[a.tx]) {
        InsertApart(s, s.open[a.tx], s.open[u]);
      }
    }
    hide Ahead;
  }

  lemma {:induction false} RunInv(s: Store, steps: seq<Step>, t: Store)
    requires Inv(s) && Run(s, steps, t)
    ensures Inv(t)
    decreases |steps|
  {
    if steps != [] {
      match steps[0] {
        case Commit(tx) => CommitInv(s, tx);
        case Prune(retention) => PruneInv(s, retention);
        case _ => OpenInv(s, steps[0]);
      }
      RunInv(Next(s, steps[0]), steps[1..], t);
    }
  }

  ghost predicate NewestIn(log: map<nat, LogRow>, deviceId: string, id: nat) {
    && id in log && log[id].deviceId == deviceId
    && forall k :: k in log && log[k].deviceId == deviceId ==> k <= id
  }

  // However the replicas' transactions interleave, a device's row is the fold of its log: it carries
  // the decision of the device's newest remaining log row, and counts all its rows.
  lemma ViewIsFoldOfLog(steps: seq<Step>, s: Store, deviceId: string)
    requires Run(Empty(), steps, s)
    ensures deviceId in s.devices <==> RowsOf(s, deviceId) != {}
    ensures deviceId in s.devices ==> s.devices[deviceId].reportCount == |RowsOf(s, deviceId)|
    ensures forall id :: NewestIn(s.log, deviceId, id) ==>
              deviceId in s.devices && s.devices[deviceId].decision == s.log[id].decision
  {
    RunInv(Empty(), steps, s);
    assert DeviceInv(s, deviceId);
    forall id | NewestIn(s.log, deviceId, id)
      ensures deviceId in s.devices && s.devices[deviceId].decision == s.log[id].decision
    {
      assert id in RowsOf(s, deviceId);
      assert Last(RowsOf(s, deviceId), id);
    }
  }

  ghost predicate NeverPruned(steps: seq<Step>) {
    forall i :: 0 <= i < |steps| ==> !steps[i].Prune?
  }

  lemma {:induction false} NothingPruned(s: Store, steps: seq<Step>, t: Store)
    requires Run(s, steps, t) && NeverPruned(steps)
    ensures t.pruned == s.pruned
    decreases |steps|
  {
    if steps != [] {
      assert !steps[0].Prune?;
      NothingPruned(Next(s, steps[0]), steps[1..], t);
    }
  }

  // Until the log is first pruned, a device's report count is the number of its log rows.
  lemma CountIsLogLength(steps: seq<Step>, s: Store, deviceId: string)
    requires Run(Empty(), steps, s) && NeverPruned(steps) && deviceId in s.devices
    ensures s.devices[deviceId].reportCount == |set id | id in s.log && s.log[id].deviceId == deviceId|
  {
    ViewIsFoldOfLog(steps, s, deviceId);
    NothingPruned(Empty(), steps, s);
    assert RowsOf(s, deviceId) == set id | id in s.log && s.log[id].deviceId == deviceId;
  }

  // ----- What /stats is computed from -----

  // The device table as the query reads it.
  function Rows(s: Store): Devices {
    map d | d in s.devices :: RowOf(s.devices[d].applied, s.devices[d].decision)
  }

  function RowOf(applied: map<string, int>, d: Decision): DeviceRow {
    DeviceRow(d.deviceGroup, applied, d.findings, d.compliant)
  }

  // Transaction k is the last one of the device to have committed.
  ghost predicate LastOf(committed: seq<Tx>, deviceId: string, k: nat) {
    && k < |committed| && committed[k].deviceId == deviceId
    && forall j :: k < j < |committed| ==> committed[j].deviceId != deviceId
  }

  // Each device row is what the device's last committed transaction wrote.
  ghost predicate RowInv(s: Store, d: string) {
    && (d in s.devices <==> exists k: nat :: LastOf(s.committed, d, k))
    && (forall k: nat :: LastOf(s.committed, d, k) ==>
          d in s.devices && s.devices[d].applied == s.committed[k].applied
          && s.devices[d].decision == s.committed[k].decision)
  }

  lemma CommitRow(s: Store, tx: nat, d: string)
    requires Enabled(s, Commit(tx)) && RowInv(s, d)
    ensures RowInv(Next(s, Commit(tx)), d)
  {
    var t, x, n := Next(s, Commit(tx)), s.open[tx], |s.committed|;
    if d == x.deviceId {
      assert LastOf(t.committed, d, n);
      forall k: nat | LastOf(t.committed, d, k) ensures k == n {
      }
    } else {
      forall k: nat ensures LastOf(t.committed, d, k) <==> LastOf(s.committed, d, k) {
        if LastOf(t.committed, d, k) {
          assert k != n;
          forall j | k < j < n ensures s.committed[j].deviceId != d {
            assert t.committed[j] == s.committed[j];
          }
        }
      }
    }
  }

  lemma {:induction false} RunRows(s: Store, steps: seq<Step>, t: Store, d: string)
    requires RowInv(s, d) && Run(s, steps, t)
    ensures RowInv(t, d)
    decreases |steps|
  {
    if steps != [] {
      if steps[0].Commit? { CommitRow(s, steps[0].tx, d); }
      RunRows(Next(s, steps[0]), steps[1..], t, d);
    }
  }

  ghost predicate Latest(s: Store, k: nat) {
    k < |s.committed| && LastOf(s.committed, s.committed[k].deviceId, k)
  }

  function RowAfter(x: Tx): DeviceRow {
    RowOf(x.applied, x.decision)
  }

  lemma RowsAreLatest(steps: seq<Step>, s: Store)
    requires Run(Empty(), steps, s)
    ensures forall k: nat :: Latest(s, k) ==>
              s.committed[k].deviceId in Rows(s) && Rows(s)[s.committed[k].deviceId] == RowAfter(s.committed[k])
    ensures forall d :: d in Rows(s) ==> exists k: nat :: Latest(s, k) && s.committed[k].deviceId == d
  {
    forall d ensures RowInv(s, d) {
      RunRows(Empty(), steps, s, d);
    }
    forall d | d in Rows(s) ensures exists k: nat :: Latest(s, k) && s.committed[k].deviceId == d {
      assert RowInv(s, d);
      var k: nat :| LastOf(s.committed, d, k);
      assert Latest(s, k);
    }
    forall k: nat | Latest(s, k)
      ensures s.committed[k].deviceId in Rows(s) && Rows(s)[s.committed[k].deviceId] == RowAfter(s.committed[k])
    {
      assert RowInv(s, s.committed[k].deviceId);
    }
  }

  // In every run, /stats answers exactly when the latest committed report of each device carries, for the
  // active policies of its group, only versions of 32 bits: one device that sends another takes it away
  // from everyone until its next report.
  lemma StatsAnswersIff(steps: seq<Step>, s: Store, t: Expectations.Table)
    requires Run(Empty(), steps, s)
    ensures Rollouts(t, Rows(s)).Ok? <==>
      forall k: nat :: Latest(s, k) ==> Fits(s.committed[k].applied, t, s.committed[k].decision.deviceGroup)
  {
    RowsAreLatest(steps, s);
    var rows := Rows(s);
    if forall k: nat :: Latest(s, k) ==> Fits(s.committed[k].applied, t, s.committed[k].decision.deviceGroup) {
      forall id, d | d in rows && Targets(t, id, rows[d].deviceGroup) && id in rows[d].applied
        ensures Expectations.FitsInteger(rows[d].applied[id])
      {
        var k: nat :| Latest(s, k) && s.committed[k].deviceId == d;
        assert Fits(s.committed[k].applied, t, s.committed[k].decision.deviceGroup);
      }
    }
    if CastsFit(t, rows) {
      forall k: nat | Latest(s, k) ensures Fits(s.committed[k].applied, t, s.committed[k].decision.deviceGroup) {
        var d := s.committed[k].deviceId;
        assert d in rows && rows[d] == RowAfter(s.committed[k]);
      }
    }
  }

  // The devices whose latest committed report names the group.
  ghost function Members(s: Store, g: string): set<string> {
    set k | 0 <= k < |s.committed| && Latest(s, k) && s.committed[k].decision.deviceGroup == g
      :: s.committed[k].deviceId
  }

  // Those of them that it reports to be at the version at least; not reporting counts as 0.
  ghost function UpToDate(s: Store, g: string, id: string, version: int): set<string> {
    set k | 0 <= k < |s.committed| && Latest(s, k) && s.committed[k].decision.deviceGroup == g
            && (if id in s.committed[k].applied then s.committed[k].applied[id] >= version else 0 >= version)
      :: s.committed[k].deviceId
  }

  lemma MembersAre(steps: seq<Step>, s: Store, g: string, id: string, version: int)
    requires Run(Empty(), steps, s)
    ensures Members(s, g) == set d | d in Rows(s) && Rows(s)[d].deviceGroup == g
    ensures UpToDate(s, g, id, version) ==
      set d | d in Rows(s) && Rows(s)[d].deviceGroup == g
              && (if id in Rows(s)[d].applied then Rows(s)[d].applied[id] >= version else 0 >= version)
  {
    RowsAreLatest(steps, s);
    var rows := Rows(s);
    forall d | d in rows
      ensures rows[d].deviceGroup == g ==> d in Members(s, g)
      ensures rows[d].deviceGroup == g
              && (if id in rows[d].applied then rows[d].applied[id] >= version else 0 >= version)
              ==> d in UpToDate(s, g, id, version)
    {
      var k: nat :| Latest(s, k) && s.committed[k].deviceId == d;
      assert rows[d] == RowAfter(s.committed[k]);
    }
    forall k: nat | Latest(s, k)
      ensures s.committed[k].deviceId in rows && rows[s.committed[k].deviceId] == RowAfter(s.committed[k])
    {
    }
  }

  // In every run, an answer of /stats lists exactly the active policies, each with its content and version,
  // and counts for each the devices whose latest committed report names its group, and those of them that
  // report at least its version.
  lemma StatsCounts(steps: seq<Step>, s: Store, t: Expectations.Table)
    requires Run(Empty(), steps, s) && Rollouts(t, Rows(s)).Ok?
    ensures var a := Rollouts(t, Rows(s)).value;
      && (forall id :: id in a <==> id in t && t[id].active)
      && (forall id :: id in a ==>
            && a[id].content == t[id].content && a[id].version == t[id].version
            && a[id].targeted == |Members(s, t[id].content.targetGroup)|
            && a[id].converged == |UpToDate(s, t[id].content.targetGroup, id, t[id].version)|)
  {
    RolloutsAre(t, Rows(s));
    forall id | id in t && t[id].active
      ensures Rollouts(t, Rows(s)).value[id].targeted == |Members(s, t[id].content.targetGroup)|
      ensures Rollouts(t, Rows(s)).value[id].converged
              == |UpToDate(s, t[id].content.targetGroup, id, t[id].version)|
    {
      MembersAre(steps, s, t[id].content.targetGroup, id, t[id].version);
    }
  }

  // And when those reports were evaluated against the current expectations, the devices it counts as not
  // converged are, for every active policy, as many as hold the finding.
  lemma StatsAgree(steps: seq<Step>, s: Store, t: Expectations.Table, id: string)
    requires Run(Empty(), steps, s) && id in t && t[id].active
    requires forall k: nat :: Latest(s, k) ==>
               && Fits(s.committed[k].applied, t, s.committed[k].decision.deviceGroup)
               && EvaluatedAgainst(RowAfter(s.committed[k]), t)
    ensures Rollouts(t, Rows(s)).Ok? && id in Rollouts(t, Rows(s)).value
    ensures var p := Rollouts(t, Rows(s)).value[id];
      p.targeted - p.converged == |Drifting(Rows(s), id, t[id].content.targetGroup)|
  {
    RowsAreLatest(steps, s);
    StatsAnswersIff(steps, s, t);
    forall d | d in Rows(s) ensures EvaluatedAgainst(Rows(s)[d], t) {
      var k: nat :| Latest(s, k) && s.committed[k].deviceId == d;
    }
    EvaluatorsAgree(t, Rows(s), id);
  }
}
