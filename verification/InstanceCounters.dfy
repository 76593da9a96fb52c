// The throughput counters of the replicas: counted in memory, and flushed from time to time into the
// replica's row of the activity table.
module InstanceCounters {
  import opened Wrappers

  datatype Counts = Counts(reports: nat, events: nat)

  function Zero(): Counts {
    Counts(0, 0)
  }

  function Plus(c: Counts, d: Counts): Counts {
    Counts(c.reports + d.reports, c.events + d.events)
  }

  // One replica and its row. `inFlight` is the flush being written. `made` counts every increment;
  // `lost` and `doubled` are what replica deaths and misreported flushes have cost.
  datatype Replica = Replica(inMemory: Counts, inFlight: Option<Counts>, stored: Counts,
                             made: Counts, lost: Counts, doubled: Counts)

  function Started(): Replica {
    Replica(Zero(), None, Zero(), Zero(), Zero(), Zero())
  }

  // `applied` says whether the statement took effect although the replica did not hear so.
  datatype Step =
    | CountReport(r: nat)
    | CountEvent(r: nat)
    | TakeFlush(r: nat)
    | FlushSucceeds(r: nat)
    | FlushRaises(r: nat, applied: bool)
    | Killed(r: nat, applied: bool)

  predicate Enabled(rs: seq<Replica>, a: Step) {
    && a.r < |rs|
    && match a
       case TakeFlush(r) => rs[r].inFlight.None?
       case FlushSucceeds(r) => rs[r].inFlight.Some?
       case FlushRaises(r, _) => rs[r].inFlight.Some?
       case Killed(r, applied) => applied ==> rs[r].inFlight.Some?
       case _ => true
  }

  function Flying(p: Replica): Counts {
    if p.inFlight.Some? then p.inFlight.value else Zero()
  }

  function Step1(p: Replica, a: Step): Replica {
    match a
    case CountReport(_) => p.(inMemory := Plus(p.inMemory, Counts(1, 0)), made := Plus(p.made, Counts(1, 0)))
    case CountEvent(_) => p.(inMemory := Plus(p.inMemory, Counts(0, 1)), made := Plus(p.made, Counts(0, 1)))
    case TakeFlush(_) => p.(inMemory := Zero(), inFlight := Some(p.inMemory))
    case FlushSucceeds(_) => p.(stored := Plus(p.stored, Flying(p)), inFlight := None)
    // The counts are put back.
    case FlushRaises(_, applied) =>
      p.(inMemory := Plus(p.inMemory, Flying(p)), inFlight := None,
         stored := if applied then Plus(p.stored, Flying(p)) else p.stored,
         doubled := if applied then Plus(p.doubled, Flying(p)) else p.doubled)
    // A replica that is killed, or whose flush is cancelled, puts nothing back.
    case Killed(_, applied) =>
      p.(inMemory := Zero(), inFlight := None,
         stored := if applied then Plus(p.stored, Flying(p)) else p.stored,
         lost := Plus(Plus(p.lost, p.inMemory), if applied then Zero() else Flying(p)))
  }

  function Next(rs: seq<Replica>, a: Step): seq<Replica>
    requires Enabled(rs, a)
  {
    rs[a.r := Step1(rs[a.r], a)]
  }

  ghost predicate Run(rs: seq<Replica>, steps: seq<Step>, ts: seq<Replica>)
    decreases |steps|
  {
    if steps == [] then rs == ts else Enabled(rs, steps[0]) && Run(Next(rs, steps[0]), steps[1..], ts)
  }

  function Start(replicas: nat): (rs: seq<Replica>)
    ensures |rs| == replicas && forall r :: 0 <= r < |rs| ==> rs[r] == Started()
  {
    seq(replicas, _ => Started())
  }

  ghost predicate Conserved(p: Replica) {
    && p.stored.reports + p.inMemory.reports + Flying(p).reports + p.lost.reports == p.made.reports + p.doubled.reports
    && p.stored.events + p.inMemory.events + Flying(p).events + p.lost.events == p.made.events + p.doubled.events
  }

  lemma StepConserves(rs: seq<Replica>, a: Step)
    requires Enabled(rs, a) && Conserved(rs[a.r])
    ensures Conserved(Step1(rs[a.r], a))
  {
  }

  ghost predicate AllConserved(rs: seq<Replica>) {
    forall r :: 0 <= r < |rs| ==> Conserved(rs[r])
  }

  lemma {:induction false} RunConserves(rs: seq<Replica>, steps: seq<Step>, ts: seq<Replica>)
    requires Run(rs, steps, ts) && AllConserved(rs)
    ensures |ts| == |rs| && AllConserved(ts)
    decreases |steps|
  {
    if steps != [] {
      StepConserves(rs, steps[0]);
      RunConserves(Next(rs, steps[0]), steps[1..], ts);
    }
  }

  lemma StartConserved(replicas: nat)
    ensures AllConserved(Start(replicas))
  {
  }

  // Whatever the flushes and the deaths, each replica's counters are conserved: stored, in memory, in
  // flight and lost make up what was counted, plus what a flush that raised after taking effect doubled.
  lemma CountersAreConserved(replicas: nat, steps: seq<Step>, rs: seq<Replica>, r: nat)
    requires Run(Start(replicas), steps, rs) && r < |rs|
    ensures |rs| == replicas && Conserved(rs[r])
  {
    StartConserved(replicas);
    RunConserves(Start(replicas), steps, rs);
  }

  // ----- What was counted -----

  // How many reports, and events, replica r counted in a run.
  function ReportsIn(steps: seq<Step>, r: nat): nat {
    if steps == [] then 0 else (if steps[0] == CountReport(r) then 1 else 0) + ReportsIn(steps[1..], r)
  }

  function EventsIn(steps: seq<Step>, r: nat): nat {
    if steps == [] then 0 else (if steps[0] == CountEvent(r) then 1 else 0) + EventsIn(steps[1..], r)
  }

  lemma {:induction false} MadeIsCounted(rs: seq<Replica>, steps: seq<Step>, ts: seq<Replica>, r: nat)
    requires Run(rs, steps, ts) && r < |rs|
    ensures |ts| == |rs| && ts[r].made == Counts(rs[r].made.reports + ReportsIn(steps, r),
                                                 rs[r].made.events + EventsIn(steps, r))
    decreases |steps|
  {
    if steps != [] {
      MadeIsCounted(Next(rs, steps[0]), steps[1..], ts, r);
    }
  }

  // So every report and every event that a replica ever counted is stored, in memory, in flight or lost,
  // with what was doubled counted twice.
  lemma EveryCountIsAccounted(replicas: nat, steps: seq<Step>, rs: seq<Replica>, r: nat)
    requires Run(Start(replicas), steps, rs) && r < replicas
    ensures r < |rs|
    ensures rs[r].stored.reports + rs[r].inMemory.reports + Flying(rs[r]).reports + rs[r].lost.reports
            == ReportsIn(steps, r) + rs[r].doubled.reports
    ensures rs[r].stored.events + rs[r].inMemory.events + Flying(rs[r]).events + rs[r].lost.events
            == EventsIn(steps, r) + rs[r].doubled.events
  {
    MadeIsCounted(Start(replicas), steps, rs, r);
    CountersAreConserved(replicas, steps, rs, r);
  }

  // No flush of replica r was misreported, and it was never killed.
  ghost predicate Undisturbed(steps: seq<Step>, r: nat) {
    forall i :: 0 <= i < |steps| && steps[i].r == r ==>
      !steps[i].Killed? && (steps[i].FlushRaises? ==> !steps[i].applied)
  }

  lemma {:induction false} NothingLost(rs: seq<Replica>, steps: seq<Step>, ts: seq<Replica>, r: nat)
    requires Run(rs, steps, ts) && Undisturbed(steps, r) && r < |rs|
    ensures r < |ts| && ts[r].lost == rs[r].lost && ts[r].doubled == rs[r].doubled
    decreases |steps|
  {
    if steps != [] {
      var a := steps[0];
      assert a.r == r ==> !a.Killed? && (a.FlushRaises? ==> !a.applied);
      NothingLost(Next(rs, a), steps[1..], ts, r);
    }
  }

  // Then nothing is lost or doubled, however many flushes raised in between.
  lemma TransientFailuresCostNothing(replicas: nat, steps: seq<Step>, rs: seq<Replica>, r: nat)
    requires Run(Start(replicas), steps, rs) && Undisturbed(steps, r) && r < replicas
    ensures r < |rs| && Plus(Plus(rs[r].stored, rs[r].inMemory), Flying(rs[r])) == rs[r].made
  {
    NothingLost(Start(replicas), steps, rs, r);
    CountersAreConserved(replicas, steps, rs, r);
    NoLoss(rs[r]);
  }

  lemma NoLoss(p: Replica)
    requires Conserved(p) && p.lost == p.doubled == Zero()
    ensures Plus(Plus(p.stored, p.inMemory), Flying(p)) == p.made
  {
  }

  // What a death costs: exactly what was in memory, and in flight unless the statement took effect.
  // Afterwards everything the replica ever counted is either stored or lost.
  lemma DeathCosts(replicas: nat, steps: seq<Step>, rs: seq<Replica>, r: nat, applied: bool)
    requires Run(Start(replicas), steps, rs) && Enabled(rs, Killed(r, applied))
    ensures var p, q := rs[r], Next(rs, Killed(r, applied))[r];
      && q.lost.reports == p.lost.reports + p.inMemory.reports + (if applied then 0 else Flying(p).reports)
      && q.lost.events == p.lost.events + p.inMemory.events + (if applied then 0 else Flying(p).events)
      && Plus(q.stored, q.lost) == Plus(p.made, p.doubled) == Plus(q.made, q.doubled)
  {
    CountersAreConserved(replicas, steps, rs, r);
    StepConserves(rs, Killed(r, applied));
  }

  // ----- The flusher as the program writes it -----

  datatype Outcome = Succeeds | Raises(applied: bool)

  // What the rest of the replica counts while a flush is being written.
  datatype Kind = AReport | AnEvent

  function CountStep(kind: Kind): Step {
    if kind.AReport? then CountReport(0) else CountEvent(0)
  }

  function CountSteps(kinds: seq<Kind>): (steps: seq<Step>)
    ensures |steps| == |kinds| && forall i :: 0 <= i < |kinds| ==> steps[i] == CountStep(kinds[i])
  {
    seq(|kinds|, i requires 0 <= i < |kinds| => CountStep(kinds[i]))
  }

  function EndStep(outcome: Outcome): Step {
    if outcome.Succeeds? then FlushSucceeds(0) else FlushRaises(0, outcome.applied)
  }

  // One turn of the flush loop, as steps of the state machine.
  function FlushSteps(meanwhile: seq<Kind>, outcome: Outcome): seq<Step> {
    [TakeFlush(0)] + CountSteps(meanwhile) + [EndStep(outcome)]
  }

  lemma {:induction false} RunSnoc(rs: seq<Replica>, steps: seq<Step>, ts: seq<Replica>, a: Step)
    requires Run(rs, steps, ts) && Enabled(ts, a)
    ensures Run(rs, steps + [a], Next(ts, a))
    decreases |steps|
  {
    if steps == [] {
      assert [a][1..] == [];
    } else {
      RunSnoc(Next(rs, steps[0]), steps[1..], ts, a);
      assert (steps + [a])[1..] == steps[1..] + [a];
    }
  }

  function Tally(kinds: seq<Kind>, n: nat): Counts
    requires n <= |kinds|
  {
    if n == 0 then Zero()
    else Plus(Tally(kinds, n - 1), if kinds[n - 1].AReport? then Counts(1, 0) else Counts(0, 1))
  }

  class Flusher {
    var reports: nat
    var events: nat
    var storedReports: nat
    var storedEvents: nat
    ghost var inFlight: Option<Counts>
    ghost var made: Counts
    ghost var lost: Counts
    ghost var doubled: Counts

    ghost function View(): Replica
      reads this
    {
      Replica(Counts(reports, events), inFlight, Counts(storedReports, storedEvents), made, lost, doubled)
    }

    constructor ()
      ensures View() == Started()
    {
      reports, events, storedReports, storedEvents := 0, 0, 0, 0;
      inFlight, made, lost, doubled := None, Zero(), Zero(), Zero();
    }

    method Count(kind: Kind)
      modifies this
      ensures View() == Step1(old(View()), CountStep(kind))
    {
      if kind.AReport? {
        reports := reports + 1;
      } else {
        events := events + 1;
      }
      made := Step1(old(View()), CountStep(kind)).made;
    }

    // Takes the counts for a flush.
    method Take() returns (r: nat, e: nat)
      requires inFlight.None?
      modifies this
      ensures r == old(reports) && e == old(events) && View() == Step1(old(View()), TakeFlush(0))
    {
      r, e := reports, events;
      reports := reports - r;
      events := events - e;
      inFlight := Some(Counts(r, e));
    }

    // Ends the flush; the counts are put back if it raised.
    method End(outcome: Outcome, r: nat, e: nat)
      requires inFlight == Some(Counts(r, e))
      modifies this
      ensures View() == Step1(old(View()), EndStep(outcome))
    {
      if outcome.Succeeds? || outcome.applied {
        storedReports, storedEvents := storedReports + r, storedEvents + e;
      }
      if outcome.Raises? {
        reports := reports + r;
        events := events + e;
        if outcome.applied { doubled := Plus(doubled, Counts(r, e)); }
      }
      inFlight := None;
    }

    // One turn of the flush loop, while counting goes on. The turn is a run of the state machine. What was
    // taken ends up stored, or in memory again, or both when the statement took effect and raised.
    method Flush(outcome: Outcome, meanwhile: seq<Kind>)
      requires inFlight.None?
      modifies this
      ensures Run([old(View())], FlushSteps(meanwhile, outcome), [View()])
      ensures Conserved(old(View())) ==> Conserved(View())
      ensures inFlight.None? && lost == old(lost) && made == Plus(old(made), Tally(meanwhile, |meanwhile|))
      ensures var taken, more := old(View()).inMemory, Tally(meanwhile, |meanwhile|);
        && View().stored == (if outcome == Raises(false) then old(View()).stored else Plus(old(View()).stored, taken))
        && View().inMemory == (if outcome.Succeeds? then more else Plus(more, taken))
    {
      ghost var before := View();
      var r, e := Take();
      FlushStarts(before, meanwhile);
      hide *;
      for i := 0 to |meanwhile|
        invariant View() == During(before, meanwhile, i) && Counting(before, meanwhile, i)
      {
        Count(meanwhile[i]);
        FlushGoesOn(before, meanwhile, i);
      }
      FlushEnds(before, meanwhile, outcome, r, e);
      End(outcome, r, e);
    }
  }

  // The replica when a flush has been taken, and the first n counts since have been made.
  function During(before: Replica, meanwhile: seq<Kind>, n: nat): Replica
    requires n <= |meanwhile|
  {
    before.(inMemory := Tally(meanwhile, n), inFlight := Some(before.inMemory),
            made := Plus(before.made, Tally(meanwhile, n)))
  }

  ghost predicate Counting(before: Replica, meanwhile: seq<Kind>, n: nat) {
    n <= |meanwhile| && Run([before], [TakeFlush(0)] + CountSteps(meanwhile)[..n], [During(before, meanwhile, n)])
  }

  lemma FlushStarts(before: Replica, meanwhile: seq<Kind>)
    requires before.inFlight.None?
    ensures Step1(before, TakeFlush(0)) == During(before, meanwhile, 0) && Counting(before, meanwhile, 0)
  {
    assert [] + [TakeFlush(0)] == [TakeFlush(0)] + CountSteps(meanwhile)[..0];
    StepOn(before, [], before, TakeFlush(0), During(before, meanwhile, 0));
  }

  lemma FlushGoesOn(before: Replica, meanwhile: seq<Kind>, n: nat)
    requires n < |meanwhile| && Counting(before, meanwhile, n)
    ensures Step1(During(before, meanwhile, n), CountStep(meanwhile[n])) == During(before, meanwhile, n + 1)
    ensures Counting(before, meanwhile, n + 1)
  {
    var steps := [TakeFlush(0)] + CountSteps(meanwhile)[..n];
    OneMoreCount(before, meanwhile, n);
    MoreSteps(meanwhile, n);
    hide Run, During, CountSteps, CountStep, Step1, Enabled;
    StepOn(before, steps, During(before, meanwhile, n), CountStep(meanwhile[n]), During(before, meanwhile, n + 1));
  }

  lemma MoreSteps(meanwhile: seq<Kind>, n: nat)
    requires n < |meanwhile|
    ensures ([TakeFlush(0)] + CountSteps(meanwhile)[..n]) + [CountStep(meanwhile[n])]
            == [TakeFlush(0)] + CountSteps(meanwhile)[..n + 1]
  {
  }

  lemma OneMoreCount(before: Replica, meanwhile: seq<Kind>, n: nat)
    requires n < |meanwhile|
    ensures CountStep(meanwhile[n]).r == 0
    ensures Enabled([During(before, meanwhile, n)], CountStep(meanwhile[n]))
    ensures Step1(During(before, meanwhile, n), CountStep(meanwhile[n])) == During(before, meanwhile, n + 1)
  {
  }

  lemma FlushEnds(before: Replica, meanwhile: seq<Kind>, outcome: Outcome, r: nat, e: nat)
    requires Counting(before, meanwhile, |meanwhile|) && before.inMemory == Counts(r, e) && before.inFlight.None?
    ensures var n := |meanwhile|;
      var t := Step1(During(before, meanwhile, n), EndStep(outcome));
      && During(before, meanwhile, n).inFlight == Some(Counts(r, e))
      && Run([before], FlushSteps(meanwhile, outcome), [t])
      && (Conserved(before) ==> Conserved(t))
      && t.inFlight.None? && t.lost == before.lost && t.made == Plus(before.made, Tally(meanwhile, n))
      && t.stored == (if outcome == Raises(false) then before.stored else Plus(before.stored, before.inMemory))
      && t.inMemory == (if outcome.Succeeds? then Tally(meanwhile, n) else Plus(Tally(meanwhile, n), before.inMemory))
  {
    var during := During(before, meanwhile, |meanwhile|);
    assert CountSteps(meanwhile)[..|meanwhile|] == CountSteps(meanwhile);
    StepOn(before, [TakeFlush(0)] + CountSteps(meanwhile), during, EndStep(outcome), Step1(during, EndStep(outcome)));
    if Conserved(before) { RunConserves([before], FlushSteps(meanwhile, outcome), [Step1(during, EndStep(outcome))]); }
  }

  lemma StepOn(before: Replica, steps: seq<Step>, now: Replica, a: Step, after: Replica)
    requires Run([before], steps, [now]) && a.r == 0 && Enabled([now], a) && after == Step1(now, a)
    ensures Run([before], steps + [a], [after])
  {
    RunSnoc([before], steps, [now], a);
    assert Next([now], a) == [after];
  }
}
