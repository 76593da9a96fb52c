// How the load simulator adds up what its worker processes count. Progress counters travel as running
// totals, of which the parent keeps the newest per worker; errors and replica hits are drained into
// each snapshot and accumulated. Each worker's snapshots arrive in the order they were sent.
module FleetSimulator {
  import opened Wrappers

  datatype Totals = Totals(heartbeats: nat, reports: nat, policyReads: nat, enrollments: nat)
  {
    function Plus(t: Totals): Totals {
      Totals(heartbeats + t.heartbeats, reports + t.reports, policyReads + t.policyReads, enrollments + t.enrollments)
    }

    predicate AtMost(t: Totals) {
      heartbeats <= t.heartbeats && reports <= t.reports && policyReads <= t.policyReads && enrollments <= t.enrollments
    }
  }

  function NoTotals(): Totals {
    Totals(0, 0, 0, 0)
  }

  // What can succeed, each with its running total.
  datatype Kind = Heartbeat | Report | PolicyRead | Enrollment

  function OneOf(kind: Kind): Totals {
    match kind
    case Heartbeat => Totals(1, 0, 0, 0)
    case Report => Totals(0, 1, 0, 0)
    case PolicyRead => Totals(0, 0, 1, 0)
    case Enrollment => Totals(0, 0, 0, 1)
  }

  // A Counter is the multiset of the labels it counted.
  type Counter = multiset<string>

  datatype Snapshot = Snapshot(workerId: nat, final: bool, totals: Totals, errors: Counter, servedBy: Counter)

  // A worker: its running totals, what it has counted since the last snapshot, and everything it ever
  // counted. Its queue holds the snapshots that the parent has not taken yet.
  datatype Worker = Worker(totals: Totals, errors: Counter, servedBy: Counter, allErrors: Counter, allServed: Counter,
                           finished: bool, queue: seq<Snapshot>)

  datatype Parent = Parent(latest: seq<Option<Totals>>, errors: Counter, servedBy: Counter, finalsSeen: nat)

  datatype Fleet = Fleet(workers: seq<Worker>, parent: Parent)

  datatype Step =
    | Success(w: nat, kind: Kind)
    | Error(w: nat, reason: string)
    | Hit(w: nat, replica: string)
    | Emit(w: nat, final: bool)
    | Merge(w: nat)

  function Start(workers: nat): Fleet {
    Fleet(seq(workers, _ => NewWorker()),
          Parent(seq(workers, _ => None), multiset{}, multiset{}, 0))
  }

  predicate Enabled(f: Fleet, a: Step) {
    && a.w < |f.workers| == |f.parent.latest|
    && (if a.Merge? then f.workers[a.w].queue != [] else !f.workers[a.w].finished)
  }

  // What a snapshot carries, and what it leaves behind.
  function Taken(p: Worker, w: nat, final: bool): Snapshot {
    Snapshot(w, final, p.totals, p.errors, p.servedBy)
  }

  function WorkerStep(p: Worker, a: Step): Worker
    requires !a.Merge?
  {
    match a
    case Success(_, kind) => p.(totals := p.totals.Plus(OneOf(kind)))
    case Error(_, reason) => p.(errors := p.errors + multiset{reason}, allErrors := p.allErrors + multiset{reason})
    case Hit(_, replica) => p.(servedBy := p.servedBy + multiset{replica}, allServed := p.allServed + multiset{replica})
    case Emit(w, final) =>
      p.(errors := multiset{}, servedBy := multiset{}, finished := final, queue := p.queue + [Taken(p, w, final)])
  }

  function Merged(p: Parent, s: Snapshot): Parent
    requires s.workerId < |p.latest|
  {
    Parent(p.latest[s.workerId := Some(s.totals)], p.errors + s.errors, p.servedBy + s.servedBy,
           if s.final then p.finalsSeen + 1 else p.finalsSeen)
  }

  function Next(f: Fleet, a: Step): Fleet
    requires Enabled(f, a)
    requires a.Merge? ==> f.workers[a.w].queue[0].workerId < |f.parent.latest|
  {
    var p := f.workers[a.w];
    if a.Merge? then Fleet(f.workers[a.w := p.(queue := p.queue[1..])], Merged(f.parent, p.queue[0]))
    else f.(workers := f.workers[a.w := WorkerStep(p, a)])
  }

  // ----- Sums over the workers -----

  // The two drained counters are handled alike.
  datatype Channel = Errors | Hits

  function Tally(c: Channel, errors: Counter, servedBy: Counter, key: string): nat {
    if c.Errors? then errors[key] else servedBy[key]
  }

  function Queued(q: seq<Snapshot>, c: Channel, key: string): nat {
    if q == [] then 0 else Tally(c, q[0].errors, q[0].servedBy, key) + Queued(q[1..], c, key)
  }

  // What worker p counted, and how much of that the parent does not have yet.
  function Counted(p: Worker, c: Channel, key: string): nat {
    Tally(c, p.allErrors, p.allServed, key)
  }

  function Outstanding(p: Worker, c: Channel, key: string): nat {
    Queued(p.queue, c, key) + Tally(c, p.errors, p.servedBy, key)
  }

  function SumCounted(ws: seq<Worker>, c: Channel, key: string): nat {
    if ws == [] then 0 else Counted(ws[0], c, key) + SumCounted(ws[1..], c, key)
  }

  function SumOutstanding(ws: seq<Worker>, c: Channel, key: string): nat {
    if ws == [] then 0 else Outstanding(ws[0], c, key) + SumOutstanding(ws[1..], c, key)
  }

  // What the parent holds and what is still outstanding make up what was counted.
  ghost predicate ConservedFor(f: Fleet, c: Channel, key: string) {
    Tally(c, f.parent.errors, f.parent.servedBy, key) + SumOutstanding(f.workers, c, key)
      == SumCounted(f.workers, c, key)
  }

  ghost predicate Conserved(f: Fleet) {
    forall c, key :: ConservedFor(f, c, key)
  }

  lemma {:induction false} SumsSet(ws: seq<Worker>, w: nat, p: Worker, c: Channel, key: string)
    requires w < |ws|
    ensures SumOutstanding(ws[w := p], c, key) ==
      SumOutstanding(ws, c, key) - Outstanding(ws[w], c, key) + Outstanding(p, c, key)
    ensures SumCounted(ws[w := p], c, key) ==
      SumCounted(ws, c, key) - Counted(ws[w], c, key) + Counted(p, c, key)
  {
    if w == 0 {
      assert ws[w := p][1..] == ws[1..];
    } else {
      assert ws[w := p][1..] == ws[1..][w - 1 := p];
      SumsSet(ws[1..], w - 1, p, c, key);
    }
  }

  lemma {:induction false} QueuedSnoc(q: seq<Snapshot>, s: Snapshot, c: Channel, key: string)
    ensures Queued(q + [s], c, key) == Queued(q, c, key) + Tally(c, s.errors, s.servedBy, key)
  {
    if q == [] {
      assert [s][1..] == [];
    } else {
      assert (q + [s])[1..] == q[1..] + [s];
      QueuedSnoc(q[1..], s, c, key);
    }
  }

  // ----- The invariant of one worker -----

  // What the parent shows for the worker, its queued snapshots and its running totals never go down in
  // this order; only the last snapshot is final, and only once the worker has finished.
  ghost predicate WorkerInv(p: Worker, w: nat, latest: Option<Totals>) {
    && (forall i :: 0 <= i < |p.queue| ==> p.queue[i].workerId == w && p.queue[i].totals.AtMost(p.totals))
    && (forall i, j :: 0 <= i <= j < |p.queue| ==> p.queue[i].totals.AtMost(p.queue[j].totals))
    && (latest.Some? ==> latest.value.AtMost(p.totals)
                         && forall i :: 0 <= i < |p.queue| ==> latest.value.AtMost(p.queue[i].totals))
    && (forall i :: 0 <= i < |p.queue| && p.queue[i].final ==> i == |p.queue| - 1 && p.finished)
    && (p.finished ==> p.errors == multiset{} == p.servedBy)
    && (p.finished && p.queue != [] ==> p.queue[|p.queue| - 1].final && p.queue[|p.queue| - 1].totals == p.totals)
    && (p.finished && p.queue == [] ==> latest == Some(p.totals))
  }

  // The final snapshot of the worker has been merged.
  predicate Closed(p: Worker) {
    p.finished && p.queue == []
  }

  function ClosedCount(ws: seq<Worker>): nat {
    if ws == [] then 0 else (if Closed(ws[0]) then 1 else 0) + ClosedCount(ws[1..])
  }

  lemma {:induction false} ClosedSet(ws: seq<Worker>, w: nat, p: Worker)
    requires w < |ws|
    ensures ClosedCount(ws[w := p]) + (if Closed(ws[w]) then 1 else 0) == ClosedCount(ws) + (if Closed(p) then 1 else 0)
  {
    if w == 0 {
      assert ws[w := p][1..] == ws[1..];
    } else {
      assert ws[w := p][1..] == ws[1..][w - 1 := p];
      ClosedSet(ws[1..], w - 1, p);
    }
  }

  ghost predicate Inv(f: Fleet) {
    && WorkersInv(f)
    && f.parent.finalsSeen == ClosedCount(f.workers)
    && Conserved(f)
  }

  lemma WorkerStepInv(p: Worker, w: nat, latest: Option<Totals>, a: Step)
    requires WorkerInv(p, w, latest) && !a.Merge? && a.w == w && !p.finished
    ensures WorkerInv(WorkerStep(p, a), w, latest)
    ensures !Closed(WorkerStep(p, a))
  {
  }

  // Counting and sending never change what the parent holds; neither does the sum they owe it.
  lemma WorkerStepCounts(p: Worker, a: Step, c: Channel, key: string)
    requires !a.Merge?
    ensures var q := WorkerStep(p, a);
      Counted(q, c, key) - Outstanding(q, c, key) == Counted(p, c, key) - Outstanding(p, c, key)
  {
    if a.Emit? { QueuedSnoc(p.queue, Taken(p, a.w, a.final), c, key); }
  }

  lemma MergeInv(p: Worker, w: nat, latest: Option<Totals>)
    requires WorkerInv(p, w, latest) && p.queue != []
    ensures WorkerInv(p.(queue := p.queue[1..]), w, Some(p.queue[0].totals))
    ensures p.queue[0].workerId == w && (p.queue[0].final <==> Closed(p.(queue := p.queue[1..])))
  {
  }

  function Moved(p: Worker, a: Step): Worker
    requires a.Merge? ==> p.queue != []
  {
    if a.Merge? then p.(queue := p.queue[1..]) else WorkerStep(p, a)
  }

  lemma StepConserves(f: Fleet, a: Step, c: Channel, key: string)
    requires Enabled(f, a) && (a.Merge? ==> f.workers[a.w].queue[0].workerId < |f.parent.latest|)
    requires ConservedFor(f, c, key)
    ensures ConservedFor(Next(f, a), c, key)
  {
    SumsSet(f.workers, a.w, Moved(f.workers[a.w], a), c, key);
    if !a.Merge? { WorkerStepCounts(f.workers[a.w], a, c, key); }
  }

  ghost predicate WorkersInv(f: Fleet) {
    && |f.parent.latest| == |f.workers|
    && forall w :: 0 <= w < |f.workers| ==> WorkerInv(f.workers[w], w, f.parent.latest[w])
  }

  lemma StepWorkers(f: Fleet, a: Step)
    requires WorkersInv(f) && Enabled(f, a)
    ensures a.Merge? ==> f.workers[a.w].queue[0].workerId == a.w
    ensures WorkersInv(Next(f, a))
  {
    var p, latest := f.workers[a.w], f.parent.latest[a.w];
    assert WorkerInv(p, a.w, latest);
    if a.Merge? {
      MergeInv(p, a.w, latest);
    } else {
      WorkerStepInv(p, a.w, latest, a);
    }
  }

  lemma StepFinals(f: Fleet, a: Step)
    requires WorkersInv(f) && Enabled(f, a) && (a.Merge? ==> f.workers[a.w].queue[0].workerId == a.w)
    requires f.parent.finalsSeen == ClosedCount(f.workers)
    ensures Next(f, a).parent.finalsSeen == ClosedCount(Next(f, a).workers)
  {
    var p, latest := f.workers[a.w], f.parent.latest[a.w];
    assert WorkerInv(p, a.w, latest);
    if a.Merge? {
      MergeInv(p, a.w, latest);
    } else {
      WorkerStepInv(p, a.w, latest, a);
    }
    ClosedSet(f.workers, a.w, Moved(p, a));
  }

  lemma StepInv(f: Fleet, a: Step)
    requires Inv(f) && Enabled(f, a)
    ensures a.Merge? ==> f.workers[a.w].queue[0].workerId == a.w
    ensures Inv(Next(f, a))
  {
    StepWorkers(f, a);
    StepFinals(f, a);
    forall c, key ensures ConservedFor(Next(f, a), c, key) {
      assert ConservedFor(f, c, key);
      StepConserves(f, a, c, key);
    }
  }

  ghost predicate Run(f: Fleet, steps: seq<Step>, g: Fleet)
    decreases |steps|
  {
    if steps == [] then f == g
    else
      && Enabled(f, steps[0])
      && (steps[0].Merge? ==> f.workers[steps[0].w].queue[0].workerId < |f.parent.latest|)
      && Run(Next(f, steps[0]), steps[1..], g)
  }

  lemma {:induction false} RunInv(f: Fleet, steps: seq<Step>, g: Fleet)
    requires Inv(f) && Run(f, steps, g)
    ensures Inv(g)
    decreases |steps|
  {
    if steps != [] {
      StepInv(f, steps[0]);
      RunInv(Next(f, steps[0]), steps[1..], g);
    }
  }

  function NewWorker(): Worker {
    Worker(NoTotals(), multiset{}, multiset{}, multiset{}, multiset{}, false, [])
  }

  lemma {:induction false} IdleSums(ws: seq<Worker>, c: Channel, key: string)
    requires forall w :: 0 <= w < |ws| ==> ws[w] == NewWorker()
    ensures SumOutstanding(ws, c, key) == SumCounted(ws, c, key) == 0 == ClosedCount(ws)
  {
    if ws != [] {
      IdleSums(ws[1..], c, key);
    }
  }

  lemma ReachableInv(workers: nat, steps: seq<Step>, f: Fleet)
    requires Run(Start(workers), steps, f)
    ensures Inv(f)
  {
    var s := Start(workers);
    IdleSums(s.workers, Errors, "");
    forall c, key ensures ConservedFor(s, c, key) {
      IdleSums(s.workers, c, key);
    }
    RunInv(s, steps, f);
  }

  // ----- What the parent shows -----

  function Shown(latest: Option<Totals>): Totals {
    if latest.Some? then latest.value else NoTotals()
  }

  function GrandTotal(latest: seq<Option<Totals>>): Totals {
    if latest == [] then NoTotals() else Shown(latest[0]).Plus(GrandTotal(latest[1..]))
  }

  function TrueTotal(ws: seq<Worker>): Totals {
    if ws == [] then NoTotals() else ws[0].totals.Plus(TrueTotal(ws[1..]))
  }

  // ----- What really happened -----

  // What the steps of a run tell of: successes of a kind, errors for a reason, answers of a replica.
  datatype Happening = Succeeded(kind: Kind) | Failed(reason: string) | Answered(replica: string)

  predicate Tells(a: Step, h: Happening) {
    match h
    case Succeeded(kind) => a.Success? && a.kind == kind
    case Failed(reason) => a.Error? && a.reason == reason
    case Answered(replica) => a.Hit? && a.replica == replica
  }

  // How often it happened in a run.
  function Times(steps: seq<Step>, h: Happening): nat {
    if steps == [] then 0 else (if Tells(steps[0], h) then 1 else 0) + Times(steps[1..], h)
  }

  lemma {:induction false} TrueTotalSet(ws: seq<Worker>, w: nat, p: Worker)
    requires w < |ws|
    ensures var t, u := TrueTotal(ws[w := p]), TrueTotal(ws);
      && t.heartbeats + ws[w].totals.heartbeats == u.heartbeats + p.totals.heartbeats
      && t.reports + ws[w].totals.reports == u.reports + p.totals.reports
      && t.policyReads + ws[w].totals.policyReads == u.policyReads + p.totals.policyReads
      && t.enrollments + ws[w].totals.enrollments == u.enrollments + p.totals.enrollments
  {
    if w == 0 {
      assert ws[w := p][1..] == ws[1..];
    } else {
      assert ws[w := p][1..] == ws[1..][w - 1 := p];
      TrueTotalSet(ws[1..], w - 1, p);
    }
  }

  // The workers' totals have grown by what happened.
  predicate GrownBy(t: Totals, u: Totals, steps: seq<Step>) {
    && u.heartbeats == t.heartbeats + Times(steps, Succeeded(Heartbeat))
    && u.reports == t.reports + Times(steps, Succeeded(Report))
    && u.policyReads == t.policyReads + Times(steps, Succeeded(PolicyRead))
    && u.enrollments == t.enrollments + Times(steps, Succeeded(Enrollment))
  }

  function Once(a: Step, h: Happening): nat {
    if Tells(a, h) then 1 else 0
  }

  lemma StepTotals(p: Worker, a: Step)
    requires a.Merge? ==> p.queue != []
    ensures var t, u := p.totals, Moved(p, a).totals;
      && u.heartbeats == t.heartbeats + Once(a, Succeeded(Heartbeat))
      && u.reports == t.reports + Once(a, Succeeded(Report))
      && u.policyReads == t.policyReads + Once(a, Succeeded(PolicyRead))
      && u.enrollments == t.enrollments + Once(a, Succeeded(Enrollment))
  {
  }

  lemma StepCounts(p: Worker, a: Step, key: string)
    requires a.Merge? ==> p.queue != []
    ensures Counted(Moved(p, a), Errors, key) == Counted(p, Errors, key) + Once(a, Failed(key))
    ensures Counted(Moved(p, a), Hits, key) == Counted(p, Hits, key) + Once(a, Answered(key))
  {
  }

  lemma NextWorkers(f: Fleet, steps: seq<Step>, g: Fleet)
    requires Run(f, steps, g) && steps != []
    ensures steps[0].w < |f.workers| && (steps[0].Merge? ==> f.workers[steps[0].w].queue != [])
    ensures Next(f, steps[0]).workers == f.workers[steps[0].w := Moved(f.workers[steps[0].w], steps[0])]
    ensures Run(Next(f, steps[0]), steps[1..], g)
    ensures forall h :: Times(steps, h) == Once(steps[0], h) + Times(steps[1..], h)
  {
  }

  // One step, as the totals of all workers see it.
  predicate StepGrows(t: Totals, u: Totals, a: Step) {
    && u.heartbeats == t.heartbeats + Once(a, Succeeded(Heartbeat))
    && u.reports == t.reports + Once(a, Succeeded(Report))
    && u.policyReads == t.policyReads + Once(a, Succeeded(PolicyRead))
    && u.enrollments == t.enrollments + Once(a, Succeeded(Enrollment))
  }

  lemma StepTotalsOfAll(ws: seq<Worker>, w: nat, a: Step)
    requires w < |ws| && (a.Merge? ==> ws[w].queue != [])
    ensures StepGrows(TrueTotal(ws), TrueTotal(ws[w := Moved(ws[w], a)]), a)
  {
    StepTotals(ws[w], a);
    hide Moved, TrueTotal, Once;
    TrueTotalSet(ws, w, Moved(ws[w], a));
  }

  lemma GrownByMore(t: Totals, m: Totals, u: Totals, steps: seq<Step>)
    requires steps != [] && StepGrows(t, m, steps[0]) && GrownBy(m, u, steps[1..])
    ensures GrownBy(t, u, steps)
  {
  }

  lemma {:induction false} TotalsTell(f: Fleet, steps: seq<Step>, g: Fleet)
    requires Run(f, steps, g)
    ensures GrownBy(TrueTotal(f.workers), TrueTotal(g.workers), steps)
    decreases |steps|
  {
    if steps != [] {
      NextWorkers(f, steps, g);
      hide *;
      StepTotalsOfAll(f.workers, steps[0].w, steps[0]);
      TotalsTell(Next(f, steps[0]), steps[1..], g);
      GrownByMore(TrueTotal(f.workers), TrueTotal(Next(f, steps[0]).workers), TrueTotal(g.workers), steps);
    }
  }

  lemma {:induction false} CountsTell(f: Fleet, steps: seq<Step>, g: Fleet, key: string)
    requires Run(f, steps, g)
    ensures SumCounted(g.workers, Errors, key) == SumCounted(f.workers, Errors, key) + Times(steps, Failed(key))
    ensures SumCounted(g.workers, Hits, key) == SumCounted(f.workers, Hits, key) + Times(steps, Answered(key))
    decreases |steps|
  {
    if steps != [] {
      NextWorkers(f, steps, g);
      hide Run, Next, Moved, SumCounted, SumOutstanding, Outstanding, Counted, Once, Times;
      StepCounts(f.workers[steps[0].w], steps[0], key);
      SumsSet(f.workers, steps[0].w, Moved(f.workers[steps[0].w], steps[0]), Errors, key);
      SumsSet(f.workers, steps[0].w, Moved(f.workers[steps[0].w], steps[0]), Hits, key);
      CountsTell(Next(f, steps[0]), steps[1..], g, key);
    }
  }

  lemma {:induction false} NoTotalYet(n: nat)
    ensures TrueTotal(Start(n).workers) == Totals(0, 0, 0, 0)
  {
    if n > 0 {
      NoTotalYet(n - 1);
      var ws := Start(n).workers;
      assert ws[1..] == Start(n - 1).workers && ws[0].totals == Totals(0, 0, 0, 0);
    }
  }

  // The totals are the numbers of what happened in the run.
  predicate Exact(t: Totals, steps: seq<Step>) {
    && t.heartbeats == Times(steps, Succeeded(Heartbeat))
    && t.reports == Times(steps, Succeeded(Report))
    && t.policyReads == Times(steps, Succeeded(PolicyRead))
    && t.enrollments == Times(steps, Succeeded(Enrollment))
  }

  lemma WorkersTell(workers: nat, steps: seq<Step>, f: Fleet, key: string)
    requires Run(Start(workers), steps, f)
    ensures Exact(TrueTotal(f.workers), steps)
    ensures SumCounted(f.workers, Errors, key) == Times(steps, Failed(key))
    ensures SumCounted(f.workers, Hits, key) == Times(steps, Answered(key))
  {
    var s := Start(workers);
    NothingYet(workers, key);
    hide *;
    TotalsTell(s, steps, f);
    CountsTell(s, steps, f, key);
    ExactFrom0(TrueTotal(s.workers), TrueTotal(f.workers), steps);
  }

  lemma NothingYet(workers: nat, key: string)
    ensures TrueTotal(Start(workers).workers) == Totals(0, 0, 0, 0)
    ensures SumCounted(Start(workers).workers, Errors, key) == SumCounted(Start(workers).workers, Hits, key) == 0
  {
    NoTotalYet(workers);
    IdleSums(Start(workers).workers, Errors, key);
    IdleSums(Start(workers).workers, Hits, key);
  }

  lemma ExactFrom0(t: Totals, u: Totals, steps: seq<Step>)
    requires t == Totals(0, 0, 0, 0) && GrownBy(t, u, steps)
    ensures Exact(u, steps)
  {
  }

  // Errors and replica hits are conserved at every moment, whichever snapshots are under way: for every
  // key, the parent's count, the queued snapshots and the workers' residue make up how often it happened.
  lemma CountsAreConserved(workers: nat, steps: seq<Step>, f: Fleet, key: string)
    requires Run(Start(workers), steps, f)
    ensures f.parent.errors[key] + SumOutstanding(f.workers, Errors, key) == Times(steps, Failed(key))
    ensures f.parent.servedBy[key] + SumOutstanding(f.workers, Hits, key) == Times(steps, Answered(key))
  {
    ReachableInv(workers, steps, f);
    WorkersTell(workers, steps, f, key);
    assert ConservedFor(f, Errors, key) && ConservedFor(f, Hits, key);
  }

  lemma {:induction false} GrandAtMostTrue(latest: seq<Option<Totals>>, ws: seq<Worker>)
    requires |latest| == |ws| && forall w :: 0 <= w < |ws| ==> Shown(latest[w]).AtMost(ws[w].totals)
    ensures GrandTotal(latest).AtMost(TrueTotal(ws))
  {
    if ws != [] {
      GrandAtMostTrue(latest[1..], ws[1..]);
    }
  }

  lemma {:induction false} GrandMonotone(latest: seq<Option<Totals>>, later: seq<Option<Totals>>)
    requires |latest| == |later| && forall w :: 0 <= w < |latest| ==> Shown(latest[w]).AtMost(Shown(later[w]))
    ensures GrandTotal(latest).AtMost(GrandTotal(later))
  {
    if latest != [] {
      GrandMonotone(latest[1..], later[1..]);
    }
  }

  // The progress totals never exceed the truth, and no step makes them smaller.
  lemma TotalsGrowTowardsTruth(workers: nat, steps: seq<Step>, f: Fleet, a: Step)
    requires Run(Start(workers), steps, f) && Enabled(f, a)
    ensures var t := GrandTotal(f.parent.latest);
      && t.heartbeats <= Times(steps, Succeeded(Heartbeat)) && t.reports <= Times(steps, Succeeded(Report))
      && t.policyReads <= Times(steps, Succeeded(PolicyRead)) && t.enrollments <= Times(steps, Succeeded(Enrollment))
    ensures a.Merge? ==> f.workers[a.w].queue[0].workerId < |f.parent.latest|
    ensures var t, u := GrandTotal(f.parent.latest), GrandTotal(Next(f, a).parent.latest);
      && t.heartbeats <= u.heartbeats && t.reports <= u.reports
      && t.policyReads <= u.policyReads && t.enrollments <= u.enrollments
  {
    WorkersTell(workers, steps, f, "");
    ReachableInv(workers, steps, f);
    assert WorkerInv(f.workers[a.w], a.w, f.parent.latest[a.w]);
    forall w | 0 <= w < |f.workers| ensures Shown(f.parent.latest[w]).AtMost(f.workers[w].totals) {
      assert WorkerInv(f.workers[w], w, f.parent.latest[w]);
    }
    GrandAtMostTrue(f.parent.latest, f.workers);
    GrandMonotone(f.parent.latest, Next(f, a).parent.latest);
  }

  lemma {:induction false} AllClosed(ws: seq<Worker>)
    ensures ClosedCount(ws) <= |ws|
    ensures ClosedCount(ws) == |ws| ==> forall w :: 0 <= w < |ws| ==> Closed(ws[w])
  {
    if ws != [] {
      AllClosed(ws[1..]);
    }
  }

  lemma {:induction false} NothingOutstanding(ws: seq<Worker>, c: Channel, key: string)
    requires forall w :: 0 <= w < |ws| ==> Outstanding(ws[w], c, key) == 0
    ensures SumOutstanding(ws, c, key) == 0
  {
    if ws != [] {
      NothingOutstanding(ws[1..], c, key);
    }
  }

  lemma {:induction false} LatestIsTrue(latest: seq<Option<Totals>>, ws: seq<Worker>)
    requires |latest| == |ws| && forall w :: 0 <= w < |ws| ==> latest[w] == Some(ws[w].totals)
    ensures GrandTotal(latest) == TrueTotal(ws)
  {
    if ws != [] {
      LatestIsTrue(latest[1..], ws[1..]);
    }
  }

  // The parent's loop stops when it has seen as many final snapshots as there are workers; then every
  // total it prints is exact.
  lemma ExactWhenAllFinal(workers: nat, steps: seq<Step>, f: Fleet, key: string)
    requires Run(Start(workers), steps, f) && f.parent.finalsSeen == |f.workers|
    ensures Exact(GrandTotal(f.parent.latest), steps)
    ensures f.parent.errors[key] == Times(steps, Failed(key))
    ensures f.parent.servedBy[key] == Times(steps, Answered(key))
  {
    WorkersTell(workers, steps, f, key);
    ReachableInv(workers, steps, f);
    AllClosed(f.workers);
    forall w | 0 <= w < |f.workers|
      ensures Outstanding(f.workers[w], Errors, key) == Outstanding(f.workers[w], Hits, key) == 0
      ensures f.parent.latest[w] == Some(f.workers[w].totals)
    {
      assert WorkerInv(f.workers[w], w, f.parent.latest[w]) && Closed(f.workers[w]);
    }
    NothingOutstanding(f.workers, Errors, key);
    NothingOutstanding(f.workers, Hits, key);
    LatestIsTrue(f.parent.latest, f.workers);
    CountsAreConserved(workers, steps, f, key);
  }

  // ----- As the program writes it -----

  // The counters of one worker process, and the queue of snapshots it has sent to the parent.
  class Stats {
    var totals: Totals
    var errors: Counter
    var servedBy: Counter
    ghost var allErrors: Counter
    ghost var allServed: Counter
    ghost var finished: bool
    var queue: seq<Snapshot>

    ghost function View(): Worker
      reads this
    {
      Worker(totals, errors, servedBy, allErrors, allServed, finished, queue)
    }

    constructor ()
      ensures View() == NewWorker()
    {
      totals, errors, servedBy, queue := NoTotals(), multiset{}, multiset{}, [];
      allErrors, allServed, finished := multiset{}, multiset{}, false;
    }

    // Counts a successful request: one more of its kind, and no more of any other.
    method Record(kind: Kind, ghost w: nat)
      modifies this
      ensures View() == WorkerStep(old(View()), Success(w, kind))
      ensures totals.heartbeats == old(totals.heartbeats) + (if kind == Heartbeat then 1 else 0)
      ensures totals.reports == old(totals.reports) + (if kind == Report then 1 else 0)
      ensures totals.policyReads == old(totals.policyReads) + (if kind == PolicyRead then 1 else 0)
      ensures totals.enrollments == old(totals.enrollments) + (if kind == Enrollment then 1 else 0)
    {
      match kind {
        case Heartbeat => totals := totals.(heartbeats := totals.heartbeats + 1);
        case Report => totals := totals.(reports := totals.reports + 1);
        case PolicyRead => totals := totals.(policyReads := totals.policyReads + 1);
        case Enrollment => totals := totals.(enrollments := totals.enrollments + 1);
      }
    }

    method RecordError(reason: string, ghost w: nat)
      modifies this
      ensures View() == WorkerStep(old(View()), Error(w, reason))
      ensures forall k :: errors[k] == old(errors)[k] + (if k == reason then 1 else 0)
    {
      errors := errors[reason := errors[reason] + 1];
      allErrors := allErrors + multiset{reason};
    }

    method RecordHit(replica: string, ghost w: nat)
      modifies this
      ensures View() == WorkerStep(old(View()), Hit(w, replica))
      ensures forall k :: servedBy[k] == old(servedBy)[k] + (if k == replica then 1 else 0)
    {
      servedBy := servedBy[replica := servedBy[replica] + 1];
      allServed := allServed + multiset{replica};
    }

    // Drains errors and replica hits; the running totals stay.
    method TakeSnapshot(workerId: nat, final: bool) returns (s: Snapshot)
      modifies this`errors, this`servedBy
      ensures s == Taken(old(View()), workerId, final)
      ensures s == Snapshot(workerId, final, old(totals), old(errors), old(servedBy))
      ensures errors == multiset{} == servedBy
    {
      var e, h := errors, servedBy;
      errors, servedBy := multiset{}, multiset{};
      s := Snapshot(workerId, final, totals, e, h);
    }

    // Sends a snapshot; the final one is the last thing a worker does.
    method Send(workerId: nat, final: bool)
      modifies this
      ensures View() == WorkerStep(old(View()), Emit(workerId, final))
      ensures queue == old(queue) + [Snapshot(workerId, final, old(totals), old(errors), old(servedBy))]
      ensures totals == old(totals) && errors == multiset{} == servedBy
    {
      var s := TakeSnapshot(workerId, final);
      queue := queue + [s];
      finished := final;
    }
  }

  function MergedAll(p: Parent, arrivals: seq<Snapshot>, n: nat): Parent
    requires n <= |arrivals| && FromWorkers(arrivals, |p.latest|)
    ensures |MergedAll(p, arrivals, n).latest| == |p.latest|
  {
    if n == 0 then p else Merged(MergedAll(p, arrivals, n - 1), arrivals[n - 1])
  }

  predicate FromWorkers(arrivals: seq<Snapshot>, workers: nat) {
    forall i :: 0 <= i < |arrivals| ==> arrivals[i].workerId < workers
  }

  lemma {:induction false} MergedCons(p: Parent, s: Snapshot, arrivals: seq<Snapshot>, n: nat)
    requires n <= |arrivals| && s.workerId < |p.latest| && FromWorkers(arrivals, |p.latest|)
    ensures FromWorkers([s] + arrivals, |p.latest|)
    ensures MergedAll(p, [s] + arrivals, n + 1) == MergedAll(Merged(p, s), arrivals, n)
  {
    if n > 0 {
      MergedCons(p, s, arrivals, n - 1);
    } else {
      assert MergedAll(p, [s] + arrivals, 0) == p;
    }
  }

  // The snapshots that the parent takes in a run, in the order of their arrival.
  ghost function Arrivals(f: Fleet, steps: seq<Step>, g: Fleet): seq<Snapshot>
    requires Run(f, steps, g)
    decreases |steps|
  {
    if steps == [] then []
    else
      (if steps[0].Merge? then [f.workers[steps[0].w].queue[0]] else []) + Arrivals(Next(f, steps[0]), steps[1..], g)
  }

  // In every run, the parent holds what its loop makes of the snapshots in the order they arrived.
  lemma {:induction false} ParentFollowsArrivals(f: Fleet, steps: seq<Step>, g: Fleet)
    requires Run(f, steps, g)
    ensures FromWorkers(Arrivals(f, steps, g), |f.parent.latest|)
    ensures g.parent == MergedAll(f.parent, Arrivals(f, steps, g), |Arrivals(f, steps, g)|)
    decreases |steps|
  {
    if steps != [] {
      var rest := Arrivals(Next(f, steps[0]), steps[1..], g);
      ParentFollowsArrivals(Next(f, steps[0]), steps[1..], g);
      if steps[0].Merge? {
        MergedCons(f.parent, f.workers[steps[0].w].queue[0], rest, |rest|);
      } else {
        assert [] + rest == rest;
      }
    }
  }

  // Once every final snapshot was merged, no worker takes another step.
  lemma NothingAfterFinals(f: Fleet, a: Step)
    requires Inv(f) && f.parent.finalsSeen >= |f.workers|
    ensures !Enabled(f, a)
  {
    AllClosed(f.workers);
    if a.w < |f.workers| { assert Closed(f.workers[a.w]); }
  }

  // The first step of a run, as the parent's fold sees it.
  lemma FirstArrival(f: Fleet, steps: seq<Step>, g: Fleet, n: nat)
    requires Inv(f) && Run(f, steps, g) && steps != [] && n <= |Arrivals(f, steps, g)|
    ensures var m := Next(f, steps[0]);
      Inv(m) && Run(m, steps[1..], g) && |m.workers| == |f.workers| && |m.parent.latest| == |f.parent.latest|
    ensures var m, rest := Next(f, steps[0]), Arrivals(Next(f, steps[0]), steps[1..], g);
      && FromWorkers(rest, |m.parent.latest|) && FromWorkers(Arrivals(f, steps, g), |f.parent.latest|)
      && |Arrivals(f, steps, g)| == |rest| + (if steps[0].Merge? then 1 else 0)
      && (steps[0].Merge? && n > 0 ==>
            MergedAll(m.parent, rest, n - 1) == MergedAll(f.parent, Arrivals(f, steps, g), n))
      && (!steps[0].Merge? ==> MergedAll(m.parent, rest, n) == MergedAll(f.parent, Arrivals(f, steps, g), n))
  {
    var m, rest := Next(f, steps[0]), Arrivals(Next(f, steps[0]), steps[1..], g);
    StepInv(f, steps[0]);
    ParentFollowsArrivals(m, steps[1..], g);
    if steps[0].Merge? {
      var s := f.workers[steps[0].w].queue[0];
      MergedCons(f.parent, s, rest, if n > 0 then n - 1 else 0);
      assert Arrivals(f, steps, g) == [s] + rest;
    } else {
      assert Arrivals(f, steps, g) == rest && m.parent == f.parent;
    }
  }

  // So the arrivals after which the parent has seen as many finals as there are workers are all of them.
  lemma {:induction false} FinalsComeLast(f: Fleet, steps: seq<Step>, g: Fleet, n: nat)
    requires Inv(f) && Run(f, steps, g) && n <= |Arrivals(f, steps, g)|
    requires FromWorkers(Arrivals(f, steps, g), |f.parent.latest|)
    requires MergedAll(f.parent, Arrivals(f, steps, g), n).finalsSeen >= |f.workers|
    ensures n == |Arrivals(f, steps, g)|
    decreases |steps|
  {
    if steps != [] {
      var isMerge := steps[0].Merge?;
      assert Enabled(f, steps[0]);
      assert n == 0 ==> MergedAll(f.parent, Arrivals(f, steps, g), n) == f.parent;
      FirstArrival(f, steps, g, n);
      hide *;
      if isMerge && n == 0 {
        NothingAfterFinals(f, steps[0]);
      } else {
        FinalsComeLast(Next(f, steps[0]), steps[1..], g, if isMerge then n - 1 else n);
      }
    }
  }

  lemma {:induction false} MergedPrefix(p: Parent, arrivals: seq<Snapshot>, all: seq<Snapshot>, n: nat)
    requires arrivals <= all && n <= |arrivals| && FromWorkers(all, |p.latest|)
    ensures FromWorkers(arrivals, |p.latest|) && MergedAll(p, arrivals, n) == MergedAll(p, all, n)
  {
    if n > 0 { MergedPrefix(p, arrivals, all, n - 1); }
  }

  // What the parent prints when its loop was stopped by the finals, and not cut off, is exact.
  lemma StoppedByFinals(workers: nat, steps: seq<Step>, f: Fleet, arrivals: seq<Snapshot>, n: nat, key: string)
    requires Run(Start(workers), steps, f) && arrivals <= Arrivals(Start(workers), steps, f) && n <= |arrivals|
    ensures FromWorkers(arrivals, workers)
    ensures var p := MergedAll(Start(workers).parent, arrivals, n);
      p.finalsSeen >= workers ==>
      && Exact(GrandTotal(p.latest), steps)
      && p.errors[key] == Times(steps, Failed(key))
      && p.servedBy[key] == Times(steps, Answered(key))
  {
    var s, all := Start(workers), Arrivals(Start(workers), steps, f);
    ParentFollowsArrivals(s, steps, f);
    MergedPrefix(s.parent, arrivals, all, n);
    if MergedAll(s.parent, arrivals, n).finalsSeen >= workers {
      ReachableInv(workers, [], s);
      FinalsComeLast(s, steps, f, n);
      WorkersStay(s, steps, f);
      ReachableInv(workers, steps, f);
      AllClosed(f.workers);
      ExactWhenAllFinal(workers, steps, f, key);
    }
  }

  lemma {:induction false} WorkersStay(f: Fleet, steps: seq<Step>, g: Fleet)
    requires Run(f, steps, g)
    ensures |g.workers| == |f.workers|
    decreases |steps|
  {
    if steps != [] {
      WorkersStay(Next(f, steps[0]), steps[1..], g);
    }
  }

  // The state of the parent's loop after n arrivals, none of which completed the finals before.
  ghost predicate Merging(workers: nat, arrivals: seq<Snapshot>, n: nat, p: Parent) {
    && n <= |arrivals| && FromWorkers(arrivals, workers) && |p.latest| == workers
    && p == MergedAll(Start(workers).parent, arrivals, n)
    && forall k: nat :: k < n ==> MergedAll(Start(workers).parent, arrivals, k).finalsSeen < workers
  }

  lemma MergingMore(workers: nat, arrivals: seq<Snapshot>, n: nat, p: Parent)
    requires Merging(workers, arrivals, n, p) && n < |arrivals| && p.finalsSeen < workers
    ensures Merging(workers, arrivals, n + 1, Merged(p, arrivals[n]))
  {
  }

  // The parent's loop over the snapshots as they arrive; `arrivals` ends where the hard stop cuts it.
  method RunFleet(workers: nat, arrivals: seq<Snapshot>) returns (p: Parent, taken: nat)
    requires FromWorkers(arrivals, workers)
    ensures taken <= |arrivals| && p == MergedAll(Start(workers).parent, arrivals, taken)
    ensures p.finalsSeen >= workers || taken == |arrivals|
    ensures forall n: nat :: n < taken ==> MergedAll(Start(workers).parent, arrivals, n).finalsSeen < workers
  {
    var latest: seq<Option<Totals>> := seq(workers, _ => None);
    var errors, servedBy, finalsSeen, n := multiset{}, multiset{}, 0, 0;
    assert Parent(latest, errors, servedBy, finalsSeen) == Start(workers).parent;
    assert Merging(workers, arrivals, 0, Start(workers).parent);
    hide MergedAll, Start;
    while finalsSeen < workers && n < |arrivals|
      invariant Merging(workers, arrivals, n, Parent(latest, errors, servedBy, finalsSeen))
    {
      MergingMore(workers, arrivals, n, Parent(latest, errors, servedBy, finalsSeen));
      var s := arrivals[n];
      latest := latest[s.workerId := Some(s.totals)];
      errors := errors + s.errors;
      servedBy := servedBy + s.servedBy;
      if s.final {
        finalsSeen := finalsSeen + 1;
      }
      n := n + 1;
    }
    p, taken := Parent(latest, errors, servedBy, finalsSeen), n;
  }

  // The loop and the totals printed after it, over what a run of the fleet sends: exact unless cut off.
  method ReportFleet(workers: nat, arrivals: seq<Snapshot>, ghost steps: seq<Step>, ghost f: Fleet)
    returns (grand: Totals, errors: Counter, servedBy: Counter, complete: bool)
    requires Run(Start(workers), steps, f) && arrivals <= Arrivals(Start(workers), steps, f)
    ensures FromWorkers(arrivals, workers)
    ensures complete ==> grand.heartbeats == Times(steps, Succeeded(Heartbeat))
    ensures complete ==> grand.reports == Times(steps, Succeeded(Report))
    ensures complete ==> grand.policyReads == Times(steps, Succeeded(PolicyRead))
    ensures complete ==> grand.enrollments == Times(steps, Succeeded(Enrollment))
    ensures complete ==> forall key :: errors[key] == Times(steps, Failed(key))
    ensures complete ==> forall key :: servedBy[key] == Times(steps, Answered(key))
    ensures !complete ==> MergedAll(Start(workers).parent, arrivals, |arrivals|).finalsSeen < workers
  {
    ParentFollowsArrivals(Start(workers), steps, f);
    MergedPrefix(Start(workers).parent, arrivals, Arrivals(Start(workers), steps, f), 0);
    var p, taken := RunFleet(workers, arrivals);
    grand, errors, servedBy, complete := GrandTotal(p.latest), p.errors, p.servedBy, p.finalsSeen >= workers;
    forall key | complete
      ensures errors[key] == Times(steps, Failed(key)) && servedBy[key] == Times(steps, Answered(key))
    {
      StoppedByFinals(workers, steps, f, arrivals, taken, key);
    }
    if complete { StoppedByFinals(workers, steps, f, arrivals, taken, ""); }
  }
}
