// The two evaluators of drift: the one in the program, applied to each report as it comes in, and the
// one in the query behind /stats, applied to the stored rows.
module Verdicts {
  import opened Wrappers
  import opened Events
  import opened Expectations

  // Findings are kept structured; the program writes them as "check_failed:<name>" and
  // "policy_drift:<id>".
  datatype Finding = CheckFailed(name: string) | PolicyDrift(policyId: string)

  datatype Report = Report(deviceId: string, deviceGroup: string, applied: map<string, int>, checks: map<string, bool>)

  datatype DeviceRow = DeviceRow(deviceGroup: string, applied: map<string, int>, findings: seq<Finding>,
                                 compliant: bool)

  // An expectation as the query returns it.
  datatype Due = Due(policyId: string, version: int)

  function AppliedVersion(applied: map<string, int>, id: string): int {
    if id in applied then applied[id] else 0
  }

  predicate Targets(t: Table, id: string, g: string) {
    id in t && t[id].active && t[id].content.targetGroup == g
  }

  predicate Drifts(applied: map<string, int>, t: Table, g: string, id: string) {
    Targets(t, id, g) && AppliedVersion(applied, id) < t[id].version
  }

  // ----- The evaluator in the program -----

  // Whether a comes before b in the order of their characters.
  predicate Before(a: string, b: string) {
    b != [] && (a == [] || a[0] < b[0] || (a[0] == b[0] && Before(a[1..], b[1..])))
  }

  lemma {:induction false} BeforeIsStrict(a: string, b: string)
    requires Before(a, b)
    ensures a != b
  {
    if a != [] && a[0] == b[0] { BeforeIsStrict(a[1..], b[1..]); }
  }

  // That is: at the first difference b has the greater character, or a ends there.
  lemma {:induction false} BeforeIff(a: string, b: string)
    ensures Before(a, b) <==>
      exists k: nat :: k <= |a| && k < |b| && a[..k] == b[..k] && (k == |a| || a[k] < b[k])
  {
    if a != [] && b != [] && a[0] == b[0] {
      BeforeIff(a[1..], b[1..]);
      if Before(a, b) {
        var k: nat :| k <= |a[1..]| && k < |b[1..]| && a[1..][..k] == b[1..][..k]
                      && (k == |a[1..]| || a[1..][k] < b[1..][k]);
        assert a[..k + 1] == [a[0]] + a[1..][..k] && b[..k + 1] == [b[0]] + b[1..][..k];
        assert k + 1 <= |a|;
      }
      if k: nat :| k <= |a| && k < |b| && a[..k] == b[..k] && (k == |a| || a[k] < b[k]) {
        assert k > 0;
        assert a[1..][..k - 1] == a[..k][1..] && b[1..][..k - 1] == b[..k][1..];
      }
    } else if a != [] && b != [] {
      forall k: nat | 0 < k <= |a| && k < |b| ensures a[..k] != b[..k] {
        assert a[..k][0] == a[0] && b[..k][0] == b[0];
      }
      assert a[..0] == b[..0];
    } else {
      assert a[..0] == b[..0];
    }
  }

  predicate Sorted(names: seq<string>) {
    forall i, j :: 0 <= i < j < |names| ==> Before(names[i], names[j])
  }

  // The names of the checks, each once, in alphabetical order.
  ghost predicate ListsChecks(names: seq<string>, checks: map<string, bool>) {
    Sorted(names) && forall n :: n in names <==> n in checks
  }

  // The active expectations of the group, in whatever order the database returns them.
  ghost predicate ListsDue(due: seq<Due>, t: Table, g: string) {
    && (forall k :: 0 <= k < |due| ==> Targets(t, due[k].policyId, g) && due[k].version == t[due[k].policyId].version)
    && (forall id :: Targets(t, id, g) ==> exists k :: 0 <= k < |due| && due[k].policyId == id)
    && forall i, j :: 0 <= i < j < |due| ==> due[i].policyId != due[j].policyId
  }

  predicate Distinct<T(==)>(xs: seq<T>) {
    forall i, j :: 0 <= i < j < |xs| ==> xs[i] != xs[j]
  }

  // The findings about checks come first, in alphabetical order.
  predicate Arranged(findings: seq<Finding>) {
    forall i, j :: 0 <= i < j < |findings| && findings[j].CheckFailed? ==>
      findings[i].CheckFailed? && Before(findings[i].name, findings[j].name)
  }

  // A finding for each failed check and for each expectation the device is behind on, and no other;
  // none twice, and the checks first and in order.
  ghost predicate Verdict(findings: seq<Finding>, r: Report, t: Table) {
    && Distinct(findings)
    && (forall n :: CheckFailed(n) in findings <==> n in r.checks && !r.checks[n])
    && (forall id :: PolicyDrift(id) in findings <==> Drifts(r.applied, t, r.deviceGroup, id))
    && Arranged(findings)
  }

  method EvaluateChecks(r: Report, names: seq<string>) returns (findings: seq<Finding>)
    requires ListsChecks(names, r.checks)
    ensures Distinct(findings) && Arranged(findings)
    ensures forall i :: 0 <= i < |findings| ==> findings[i].CheckFailed?
    ensures forall n :: CheckFailed(n) in findings <==> n in r.checks && !r.checks[n]
  {
    findings := [];
    for k := 0 to |names|
      invariant Distinct(findings) && Arranged(findings)
      invariant forall i :: 0 <= i < |findings| ==> findings[i].CheckFailed? && findings[i].name in names[..k]
      invariant forall n :: n in names[..k] ==> (CheckFailed(n) in findings <==> !r.checks[n])
    {
      var name := names[k];
      assert names[..k + 1] == names[..k] + [name];
      forall n | n in names[..k] ensures Before(n, name) && n != name {
        BeforeIsStrict(n, name);
      }
      if !r.checks[name] {
        findings := findings + [CheckFailed(name)];
      }
    }
    assert names[..|names|] == names;
  }

  method Evaluate(r: Report, names: seq<string>, due: seq<Due>, ghost t: Table)
    returns (findings: seq<Finding>, compliant: bool)
    requires ListsChecks(names, r.checks) && ListsDue(due, t, r.deviceGroup)
    ensures Judged(DeviceRow(r.deviceGroup, r.applied, findings, compliant), r, t)
    ensures compliant <==> findings == []
    ensures forall id :: PolicyDrift(id) in findings <==>
      && id in t && t[id].active && t[id].content.targetGroup == r.deviceGroup
      && (if id in r.applied then r.applied[id] < t[id].version else 0 < t[id].version)
  {
    findings := EvaluateChecks(r, names);
    var checks := |findings|;
    for k := 0 to |due|
      invariant Distinct(findings) && Arranged(findings)
      invariant checks <= |findings|
      invariant forall i :: 0 <= i < |findings| ==> (findings[i].CheckFailed? <==> i < checks)
      invariant forall n :: CheckFailed(n) in findings <==> n in r.checks && !r.checks[n]
      invariant forall id :: PolicyDrift(id) in findings <==>
        exists j :: 0 <= j < k && due[j].policyId == id && AppliedVersion(r.applied, id) < due[j].version
    {
      var applied := if due[k].policyId in r.applied then r.applied[due[k].policyId] else 0;
      if applied < due[k].version {
        assert PolicyDrift(due[k].policyId) !in findings;
        findings := findings + [PolicyDrift(due[k].policyId)];
      }
    }
    compliant := |findings| == 0;
    ghost var row := DeviceRow(r.deviceGroup, r.applied, findings, compliant);
    forall id
      ensures PolicyDrift(id) in findings <==>
        && id in t && t[id].active && t[id].content.targetGroup == r.deviceGroup
        && (if id in r.applied then r.applied[id] < t[id].version else 0 < t[id].version)
    {
      DriftIff(row, r, t, id);
    }
  }

  // The row that a report leaves when it is evaluated against the expectations.
  ghost predicate Judged(row: DeviceRow, r: Report, t: Table) {
    && row.deviceGroup == r.deviceGroup && row.applied == r.applied
    && Verdict(row.findings, r, t)
    && (row.compliant <==> row.findings == [])
  }

  // ----- The evaluator in the query -----

  datatype Progress = Progress(content: Content, version: int, targeted: nat, converged: nat)

  datatype QueryError = IntegerOutOfRange

  type Devices = map<string, DeviceRow>

  function InGroup(devices: Devices, g: string): set<string> {
    set d | d in devices && devices[d].deviceGroup == g
  }

  function Converged(devices: Devices, id: string, row: Row): set<string> {
    set d | d in devices && devices[d].deviceGroup == row.content.targetGroup
            && AppliedVersion(devices[d].applied, id) >= row.version
  }

  // The query casts the version a device reports to a 32-bit integer, for each active policy of the
  // device's group.
  ghost predicate CastsFit(t: Table, devices: Devices) {
    forall id, d :: d in devices && Targets(t, id, devices[d].deviceGroup) && id in devices[d].applied ==>
                      FitsInteger(devices[d].applied[id])
  }

  // The same of the versions that one device reports: nothing that ingestion checks.
  ghost predicate Fits(applied: map<string, int>, t: Table, g: string) {
    forall id :: id in t && t[id].active && t[id].content.targetGroup == g && id in applied ==>
                   -0x8000_0000 <= applied[id] < 0x8000_0000
  }

  ghost function Rollouts(t: Table, devices: Devices): Result<map<string, Progress>, QueryError> {
    if !CastsFit(t, devices) then Err(IntegerOutOfRange)
    else Ok(map id | id in t && t[id].active ::
              Progress(t[id].content, t[id].version,
                       |InGroup(devices, t[id].content.targetGroup)|, |Converged(devices, id, t[id])|))
  }

  function Drifting(devices: Devices, id: string, g: string): set<string> {
    set d | d in devices && devices[d].deviceGroup == g && PolicyDrift(id) in devices[d].findings
  }

  ghost predicate EvaluatedAgainst(row: DeviceRow, t: Table) {
    && (forall id :: PolicyDrift(id) in row.findings <==> Drifts(row.applied, t, row.deviceGroup, id))
    && (row.compliant <==> row.findings == [])
  }

  lemma SplitSize<T>(whole: set<T>, a: set<T>, b: set<T>)
    requires whole == a + b && a !! b
    ensures |whole| == |a| + |b|
  {
  }

  // If every row was last evaluated against the current expectations, then for every active policy the
  // devices the query counts as not converged are as many as hold the finding.
  lemma EvaluatorsAgree(t: Table, devices: Devices, id: string)
    requires forall d :: d in devices ==> EvaluatedAgainst(devices[d], t)
    requires id in t && t[id].active
    ensures Rollouts(t, devices).Ok? ==>
      id in Rollouts(t, devices).value
      && var p := Rollouts(t, devices).value[id];
         p.targeted - p.converged == |Drifting(devices, id, t[id].content.targetGroup)|
  {
    var g := t[id].content.targetGroup;
    assert InGroup(devices, g) == Converged(devices, id, t[id]) + Drifting(devices, id, g);
    SplitSize(InGroup(devices, g), Converged(devices, id, t[id]), Drifting(devices, id, g));
  }

  // The drift findings of a report, said of the report and the table themselves: a policy that the device
  // does not report counts as version 0.
  lemma DriftIff(row: DeviceRow, r: Report, t: Table, id: string)
    requires Judged(row, r, t)
    ensures PolicyDrift(id) in row.findings <==>
      && id in t && t[id].active && t[id].content.targetGroup == r.deviceGroup
      && (id in r.applied ==> r.applied[id] < t[id].version)
      && (id !in r.applied ==> 0 < t[id].version)
  {
  }

  // And a device is found compliant exactly when its report has no failed check and is not behind on any
  // active policy of its group.
  lemma CompliantIff(row: DeviceRow, r: Report, t: Table)
    requires Judged(row, r, t)
    ensures row.compliant <==>
      && (forall n :: n in r.checks ==> r.checks[n])
      && (forall id :: id in t && t[id].active && t[id].content.targetGroup == r.deviceGroup ==>
            if id in r.applied then r.applied[id] >= t[id].version else 0 >= t[id].version)
  {
    if row.findings != [] {
      var f := row.findings[0];
      assert f in row.findings;
      if f.PolicyDrift? { DriftIff(row, r, t, f.policyId); }
    } else {
      forall id | id in t && t[id].active && t[id].content.targetGroup == r.deviceGroup
        ensures if id in r.applied then r.applied[id] >= t[id].version else 0 >= t[id].version
      {
        DriftIff(row, r, t, id);
      }
      forall n | n in r.checks ensures r.checks[n] {
        assert CheckFailed(n) !in row.findings;
      }
    }
  }

  // What an answer of the query says, of the rows themselves: exactly the active policies, each with its
  // content and version; all devices of its group; and those of them that report at least its version, or
  // report nothing when that is no more than 0.
  lemma RolloutsAre(t: Table, devices: Devices)
    requires Rollouts(t, devices).Ok?
    ensures var a := Rollouts(t, devices).value;
      && (forall id :: id in a <==> id in t && t[id].active)
      && (forall id :: id in a ==>
            && a[id].content == t[id].content && a[id].version == t[id].version
            && a[id].targeted == |set d | d in devices && devices[d].deviceGroup == t[id].content.targetGroup|
            && a[id].converged ==
                 |set d | d in devices && devices[d].deviceGroup == t[id].content.targetGroup
                          && (if id in devices[d].applied then devices[d].applied[id] >= t[id].version
                              else 0 >= t[id].version)|)
  {
    var a := Rollouts(t, devices).value;
    forall id | id in a
      ensures a[id].targeted == |set d | d in devices && devices[d].deviceGroup == t[id].content.targetGroup|
      ensures a[id].converged ==
                |set d | d in devices && devices[d].deviceGroup == t[id].content.targetGroup
                         && (if id in devices[d].applied then devices[d].applied[id] >= t[id].version
                             else 0 >= t[id].version)|
    {
      assert InGroup(devices, t[id].content.targetGroup)
          == set d | d in devices && devices[d].deviceGroup == t[id].content.targetGroup;
      assert Converged(devices, id, t[id])
          == set d | d in devices && devices[d].deviceGroup == t[id].content.targetGroup
                     && (if id in devices[d].applied then devices[d].applied[id] >= t[id].version
                         else 0 >= t[id].version);
    }
  }

  // One report with a version beyond 32 bits, accepted as compliant, and /stats answers nobody.
  lemma OneReportBreaksStats(r: Report, row: DeviceRow)
    requires r == Report("d", "g", map["p" := 0x8000_0000], map[])
    requires row == DeviceRow("g", r.applied, [], true)
    ensures var t: Table := map["p" := Expectations.Row(Content("n", "g", "{}"), 1, true)];
      && Judged(row, r, t) && Rollouts(t, map["d" := row]) == Err(IntegerOutOfRange)
      && Rollouts(t, map["d" := row.(applied := map["p" := 0x7fff_ffff])]).Ok?
  {
    var t: Table := map["p" := Expectations.Row(Content("n", "g", "{}"), 1, true)];
    var devices := map["d" := row];
    assert "d" in devices && Targets(t, "p", devices["d"].deviceGroup) && !FitsInteger(devices["d"].applied["p"]);
  }

  // ----- Reports evaluated against older expectations -----

  // No expectation has disappeared or gone back since.
  predicate NoOlderThan(now: Table, before: Table) {
    forall id :: id in before ==> id in now && before[id].version <= now[id].version
  }

  // A finding from back then is one that the query confirms now.
  lemma DriftingIsBehind(t: Table, devices: Devices, seen: map<string, Table>, id: string)
    requires forall d :: d in devices ==> d in seen && NoOlderThan(t, seen[d]) && EvaluatedAgainst(devices[d], seen[d])
    requires id in t && t[id].active
    ensures Drifting(devices, id, t[id].content.targetGroup)
            <= InGroup(devices, t[id].content.targetGroup) - Converged(devices, id, t[id])
  {
    forall d | d in Drifting(devices, id, t[id].content.targetGroup) ensures d !in Converged(devices, id, t[id]) {
      assert EvaluatedAgainst(devices[d], seen[d]);
      assert Drifts(devices[d].applied, seen[d], devices[d].deviceGroup, id);
    }
  }

  lemma SubsetSize<T>(part: set<T>, whole: set<T>)
    requires part <= whole
    ensures |part| <= |whole|
  {
    SplitSize(whole, part, whole - part);
  }

  // Devices whose last report was evaluated before a change may lack a finding, but never hold one that
  // the query would not confirm: for an active policy the query counts at least as many devices behind.
  lemma StaleReportsUnderstate(t: Table, devices: Devices, seen: map<string, Table>, id: string)
    requires forall d :: d in devices ==> d in seen && NoOlderThan(t, seen[d]) && EvaluatedAgainst(devices[d], seen[d])
    requires id in t && t[id].active
    ensures Drifting(devices, id, t[id].content.targetGroup)
            <= InGroup(devices, t[id].content.targetGroup) - Converged(devices, id, t[id])
    ensures |Drifting(devices, id, t[id].content.targetGroup)|
            <= |InGroup(devices, t[id].content.targetGroup)| - |Converged(devices, id, t[id])|
  {
    DriftingIsBehind(t, devices, seen, id);
    var all, ok := InGroup(devices, t[id].content.targetGroup), Converged(devices, id, t[id]);
    assert ok <= all;
    hide *;
    SplitSize(all, ok, all - ok);
    SubsetSize(Drifting(devices, id, t[id].content.targetGroup), all - ok);
  }
}
