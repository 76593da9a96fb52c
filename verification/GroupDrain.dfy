// Why the group drains: every step of a replica is either a fault or progress towards a measure, and
// any single surviving replica can always take a step that is progress.
module GroupDrain {
  import opened Wrappers
  import opened Events
  import opened Expectations
  import opened Redelivery
  import opened ConsumerGroup
  import opened GroupSafety

  function Ids(xs: seq<nat>): set<nat> {
    set x | x in xs
  }

  function Held(w: Worker): set<nat> {
    Ids(w.inbox) + (if w.acking.Some? then {w.acking.value} else {})
  }

  // What one replica may still have to do: fetch, handle and acknowledge every entry that is neither
  // acknowledged nor in its hands, and finish those that are in its hands.
  function Cost(pending: set<nat>, undelivered: nat, w: Worker): nat {
    3 * (|pending - Held(w)| + undelivered) + 2 * |w.inbox| + (if w.acking.Some? then 1 else 0)
  }

  function Sum(xs: seq<nat>): nat {
    if xs == [] then 0 else xs[0] + Sum(xs[1..])
  }

  function Costs(pending: set<nat>, undelivered: nat, ws: seq<Worker>): (xs: seq<nat>)
    ensures |xs| == |ws|
    ensures forall k :: 0 <= k < |ws| ==> xs[k] == Cost(pending, undelivered, ws[k])
  {
    seq(|ws|, k requires 0 <= k < |ws| => Cost(pending, undelivered, ws[k]))
  }

  function Outstanding(s: State): nat {
    if s.delivered <= |s.log| then |s.log| - s.delivered else 0
  }

  function Work(s: State): nat {
    Sum(Costs(s.pending.Keys, Outstanding(s), s.workers))
  }

  lemma {:induction false} SumAtMost(xs: seq<nat>, ys: seq<nat>)
    requires |xs| == |ys| && forall k :: 0 <= k < |xs| ==> xs[k] <= ys[k]
    ensures Sum(xs) <= Sum(ys)
  {
    if xs != [] {
      SumAtMost(xs[1..], ys[1..]);
    }
  }

  lemma {:induction false} SumLess(xs: seq<nat>, ys: seq<nat>, r: nat)
    requires |xs| == |ys| && forall k :: 0 <= k < |xs| ==> xs[k] <= ys[k]
    requires r < |xs| && xs[r] < ys[r]
    ensures Sum(xs) < Sum(ys)
  {
    if r == 0 {
      SumAtMost(xs[1..], ys[1..]);
    } else {
      SumLess(xs[1..], ys[1..], r - 1);
    }
  }

  lemma {:induction false} SumLimit(xs: seq<nat>, each: nat)
    requires forall k :: 0 <= k < |xs| ==> xs[k] <= each
    ensures Sum(xs) <= Times(|xs|, each)
  {
    if xs != [] {
      SumLimit(xs[1..], each);
      assert |xs| * each == |xs[1..]| * each + each;
    }
  }

  lemma SubsetSize(a: set<nat>, b: set<nat>)
    requires a <= b
    ensures |a| <= |b|
  {
    assert b == a + (b - a);
  }

  lemma {:induction false} IdsSize(xs: seq<nat>)
    requires StrictlyIncreasing(xs)
    ensures |Ids(xs)| == |xs|
  {
    if xs != [] {
      var front, last := xs[..|xs| - 1], xs[|xs| - 1];
      IdsSize(front);
      assert Ids(xs) == Ids(front) + {last};
    }
  }

  lemma {:induction false} IdsBelow(xs: seq<nat>, n: nat)
    requires StrictlyIncreasing(xs) && forall i :: 0 <= i < |xs| ==> xs[i] < n
    ensures |xs| <= n
  {
    if xs != [] {
      IdsBelow(xs[..|xs| - 1], xs[|xs| - 1]);
    }
  }

  lemma {:induction false} SetBelow(a: set<nat>, n: nat)
    requires forall i :: i in a ==> i < n
    ensures |a| <= n
  {
    if n > 0 {
      SetBelow(a - {n - 1}, n - 1);
    } else {
      assert a == {};
    }
  }

  // A step of a replica, as opposed to a publication or the creation of the group.
  predicate Works(l: Label) {
    !l.Announce? && !l.EnsureGroup?
  }

  lemma TakeCost(pending: set<nat>, u: nat, w: Worker)
    requires w.inbox != [] && w.acking.None?
    ensures Cost(pending, u, Worker(w.inbox[1..], Some(w.inbox[0]))) < Cost(pending, u, w)
  {
    assert w.inbox == [w.inbox[0]] + w.inbox[1..];
    assert Held(Worker(w.inbox[1..], Some(w.inbox[0]))) == Held(w);
  }

  lemma AckCost(pending: set<nat>, u: nat, w: Worker)
    requires w.acking.Some?
    ensures Cost(pending - {w.acking.value}, u, Worker(w.inbox, None)) < Cost(pending, u, w)
  {
    assert (pending - {w.acking.value}) - Held(Worker(w.inbox, None)) == pending - Held(w);
  }

  // What one replica acknowledges, no other has to do.
  lemma AckedCost(pending: set<nat>, id: nat, u: nat, w: Worker)
    ensures Cost(pending - {id}, u, w) <= Cost(pending, u, w)
  {
    SubsetSize((pending - {id}) - Held(w), pending - Held(w));
  }

  lemma ReclaimCost(pending: set<nat>, u: nat, ids: seq<nat>)
    requires ids != [] && StrictlyIncreasing(ids) && Ids(ids) <= pending
    ensures Cost(pending, u, Worker(ids, None)) < Cost(pending, u, NoWork())
  {
    IdsSize(ids);
    assert pending == (pending - Ids(ids)) + Ids(ids);
    assert Held(Worker(ids, None)) == Ids(ids) && pending - Held(NoWork()) == pending;
  }

  lemma NewCost(pending: set<nat>, u: nat, ids: seq<nat>)
    requires ids != [] && StrictlyIncreasing(ids) && Ids(ids) !! pending
    ensures Cost(pending + Ids(ids), u, Worker(ids, None)) < Cost(pending, u + |ids|, NoWork())
  {
    IdsSize(ids);
    assert pending - Held(NoWork()) == pending;
    assert (pending + Ids(ids)) - Held(Worker(ids, None)) == pending;
  }

  // Delivering entries to one replica costs the others nothing.
  lemma MovedCost(pending: set<nat>, ids: seq<nat>, u: nat, w: Worker)
    requires StrictlyIncreasing(ids)
    ensures Cost(pending + Ids(ids), u, w) <= Cost(pending, u + |ids|, w)
  {
    IdsSize(ids);
    SubsetSize((pending + Ids(ids)) - Held(w), (pending - Held(w)) + Ids(ids));
    assert |(pending - Held(w)) + Ids(ids)| <= |pending - Held(w)| + |Ids(ids)|;
  }

  // Less for replica r, and no more for any other.
  ghost predicate Cheaper(p': set<nat>, u': nat, ws': seq<Worker>, p: set<nat>, u: nat, ws: seq<Worker>, r: nat) {
    && |ws'| == |ws|
    && r < |ws|
    && Cost(p', u', ws'[r]) < Cost(p, u, ws[r])
    && forall k :: 0 <= k < |ws| ==> Cost(p', u', ws'[k]) <= Cost(p, u, ws[k])
  }

  lemma CheaperSum(p': set<nat>, u': nat, ws': seq<Worker>, p: set<nat>, u: nat, ws: seq<Worker>, r: nat)
    requires Cheaper(p', u', ws', p, u, ws, r)
    ensures Sum(Costs(p', u', ws')) < Sum(Costs(p, u, ws))
  {
    SumLess(Costs(p', u', ws'), Costs(p, u, ws), r);
  }

  lemma ReadNewCheaper(p: set<nat>, u: nat, ws: seq<Worker>, r: nat, ids: seq<nat>)
    requires r < |ws| && ws[r] == NoWork()
    requires ids != [] && StrictlyIncreasing(ids) && Ids(ids) !! p
    ensures Cheaper(p + Ids(ids), u, ws[r := Worker(ids, None)], p, u + |ids|, ws, r)
  {
    NewCost(p, u, ids);
    forall k | 0 <= k < |ws| && k != r ensures Cost(p + Ids(ids), u, ws[k]) <= Cost(p, u + |ids|, ws[k]) {
      MovedCost(p, ids, u, ws[k]);
    }
  }

  lemma ReclaimCheaper(p: set<nat>, u: nat, ws: seq<Worker>, r: nat, ids: seq<nat>)
    requires r < |ws| && ws[r] == NoWork()
    requires ids != [] && StrictlyIncreasing(ids) && Ids(ids) <= p
    ensures Cheaper(p, u, ws[r := Worker(ids, None)], p, u, ws, r)
  {
    ReclaimCost(p, u, ids);
  }

  lemma TakeCheaper(p: set<nat>, u: nat, ws: seq<Worker>, r: nat)
    requires r < |ws| && ws[r].inbox != [] && ws[r].acking.None?
    ensures Cheaper(p, u, ws[r := Worker(ws[r].inbox[1..], Some(ws[r].inbox[0]))], p, u, ws, r)
  {
    TakeCost(p, u, ws[r]);
  }

  lemma AckCheaper(p: set<nat>, u: nat, ws: seq<Worker>, r: nat)
    requires r < |ws| && ws[r].acking.Some?
    ensures Cheaper(p - {ws[r].acking.value}, u, ws[r := Worker(ws[r].inbox, None)], p, u, ws, r)
  {
    var id := ws[r].acking.value;
    AckCost(p, u, ws[r]);
    forall k | 0 <= k < |ws| && k != r ensures Cost(p - {id}, u, ws[k]) <= Cost(p, u, ws[k]) {
      AckedCost(p, id, u, ws[k]);
    }
  }

  lemma ReadNewProgress(s: State, r: nat)
    requires GroupInv(s) && Enabled(s, ReadNew(r))
    ensures Work(Next(s, ReadNew(r))) < Work(s)
  {
    var ids, t := NewIds(s), Next(s, ReadNew(r));
    assert t.pending.Keys == s.pending.Keys + Ids(ids);
    hide Cost, Sum, Costs, Cheaper;
    ReadNewCheaper(s.pending.Keys, Outstanding(t), s.workers, r, ids);
    CheaperSum(t.pending.Keys, Outstanding(t), t.workers, s.pending.Keys, Outstanding(s), s.workers, r);
  }

  lemma ReclaimKeys(s: State, r: nat, ids: seq<nat>)
    requires Enabled(s, Reclaim(r, ids))
    ensures var t := Next(s, Reclaim(r, ids));
      && Ids(ids) <= s.pending.Keys == t.pending.Keys
      && t.workers == s.workers[r := Worker(ids, None)] && Outstanding(t) == Outstanding(s)
  {
  }

  lemma ReclaimProgress(s: State, r: nat, ids: seq<nat>)
    requires GroupInv(s) && Enabled(s, Reclaim(r, ids))
    ensures Work(Next(s, Reclaim(r, ids))) < Work(s)
  {
    var keys, ws := s.pending.Keys, s.workers[r := Worker(ids, None)];
    ReclaimKeys(s, r, ids);
    ReclaimCheaper(keys, Outstanding(s), s.workers, r, ids);
    CheaperSum(keys, Outstanding(s), ws, keys, Outstanding(s), s.workers, r);
  }

  lemma TakeProgress(s: State, r: nat, l: Label)
    requires Enabled(s, l) && l in {Discard(r), Handle(r)}
    ensures Work(Next(s, l)) < Work(s)
  {
    var t := Next(s, l);
    TakeCheaper(s.pending.Keys, Outstanding(s), s.workers, r);
    CheaperSum(t.pending.Keys, Outstanding(t), t.workers, s.pending.Keys, Outstanding(s), s.workers, r);
  }

  lemma AckKeys(s: State, r: nat)
    requires Enabled(s, Ack(r))
    ensures Next(s, Ack(r)).pending.Keys == s.pending.Keys - {s.workers[r].acking.value}
    ensures Next(s, Ack(r)).workers == s.workers[r := Worker(s.workers[r].inbox, None)]
    ensures Outstanding(Next(s, Ack(r))) == Outstanding(s)
  {
  }

  lemma AckProgress(s: State, r: nat)
    requires Enabled(s, Ack(r))
    ensures Work(Next(s, Ack(r))) < Work(s)
  {
    var keys, ws := s.pending.Keys - {s.workers[r].acking.value}, s.workers[r := Worker(s.workers[r].inbox, None)];
    AckCheaper(s.pending.Keys, Outstanding(s), s.workers, r);
    CheaperSum(keys, Outstanding(s), ws, s.pending.Keys, Outstanding(s), s.workers, r);
    AckKeys(s, r);
  }

  // Every step that is not a fault is progress.
  lemma StepDecreases(s: State, l: Label)
    requires GroupInv(s) && Enabled(s, l) && Works(l) && !Faulty(l)
    ensures Work(Next(s, l)) < Work(s)
  {
    match l
    case ReadNew(r) => ReadNewProgress(s, r);
    case Reclaim(r, ids) => ReclaimProgress(s, r, ids);
    case Discard(r) => TakeProgress(s, r, l);
    case Handle(r) => TakeProgress(s, r, l);
    case Ack(r) => AckProgress(s, r);
  }

  // ----- Bounded runs -----

  // The work left is never more than this.
  function Limit(replicas: nat, entries: nat): nat {
    Times(replicas, 5 * entries + 1)
  }

  function Times(n: nat, each: nat): nat {
    n * each
  }

  predicate Bounded(w: Worker, n: nat) {
    StrictlyIncreasing(w.inbox) && forall i :: 0 <= i < |w.inbox| ==> w.inbox[i] < n
  }

  lemma CostLimit(pending: set<nat>, u: nat, delivered: nat, w: Worker)
    requires forall id :: id in pending ==> id < delivered
    requires Bounded(w, delivered)
    ensures Cost(pending, u, w) <= 5 * (delivered + u) + 1
  {
    SetBelow(pending - Held(w), delivered);
    IdsBelow(w.inbox, delivered);
  }

  lemma WorkerLimit(s: State, r: nat)
    requires Inv(s) && r < |s.workers|
    ensures Cost(s.pending.Keys, Outstanding(s), s.workers[r]) <= 5 * |s.log| + 1
  {
    assert WorkerInv(s, s.workers[r]);
    CostLimit(s.pending.Keys, Outstanding(s), s.delivered, s.workers[r]);
  }

  lemma WorkLimit(s: State)
    requires Inv(s)
    ensures Work(s) <= Limit(|s.workers|, |s.log|)
  {
    hide Inv, Cost, Outstanding, Sum, Times;
    var xs := Costs(s.pending.Keys, Outstanding(s), s.workers);
    forall r | 0 <= r < |xs| ensures xs[r] <= 5 * |s.log| + 1 {
      WorkerLimit(s, r);
    }
    SumLimit(xs, 5 * |s.log| + 1);
  }

  lemma StepKeeps(s: State, l: Label)
    requires Enabled(s, l) && Works(l)
    ensures Next(s, l).log == s.log && |Next(s, l).workers| == |s.workers| && Next(s, l).created == s.created
  {
  }

  ghost predicate Capped(s: State, limit: nat) {
    Inv(s) && limit == Limit(|s.workers|, |s.log|)
  }

  lemma StepCapped(s: State, l: Label, limit: nat)
    requires Capped(s, limit) && Enabled(s, l) && Works(l)
    ensures Capped(Next(s, l), limit)
  {
    StepInv(s, l);
    StepKeeps(s, l);
  }

  lemma StepLimit(s: State, l: Label, limit: nat)
    requires Capped(s, limit) && Enabled(s, l) && Works(l)
    ensures Capped(Next(s, l), limit)
    ensures Work(Next(s, l)) <= if Faulty(l) then limit else Work(s) - 1
  {
    StepCapped(s, l, limit);
    if Faulty(l) {
      WorkLimit(Next(s, l));
    } else {
      StepDecreases(s, l);
    }
  }

  function Faults(ls: seq<Label>): nat {
    if ls == [] then 0 else (if Faulty(ls[0]) then 1 else 0) + Faults(ls[1..])
  }

  function FaultCost(ls: seq<Label>, limit: nat): nat {
    if ls == [] then 0 else (if Faulty(ls[0]) then limit + 1 else 0) + FaultCost(ls[1..], limit)
  }

  lemma {:induction false} FaultCostIs(ls: seq<Label>, limit: nat)
    ensures FaultCost(ls, limit) == Faults(ls) * (limit + 1)
  {
    if ls != [] {
      FaultCostIs(ls[1..], limit);
    }
  }

  ghost predicate AllWork(ls: seq<Label>) {
    forall i :: 0 <= i < |ls| ==> Works(ls[i])
  }

  lemma {:induction false} RunCost(s: State, ls: seq<Label>, t: State, limit: nat)
    requires Capped(s, limit) && Run(s, ls, t) && AllWork(ls)
    ensures |ls| <= FaultCost(ls, limit) + Work(s)
    decreases |ls|
  {
    hide Capped, Work, Next, Enabled;
    if ls != [] {
      StepLimit(s, ls[0], limit);
      RunCost(Next(s, ls[0]), ls[1..], t, limit);
    }
  }

  // Once publication stops, the length of any run of any replicas is bounded by the number of handler
  // failures, acknowledgement failures and crashes in it: with finitely many, the group comes to rest.
  lemma RunsAreBounded(s: State, ls: seq<Label>, t: State, limit: nat)
    requires Inv(s) && Run(s, ls, t) && limit == Limit(|s.workers|, |s.log|) && AllWork(ls)
    ensures |ls| <= Faults(ls) * (limit + 1) + limit
  {
    RunCost(s, ls, t, limit);
    FaultCostIs(ls, limit);
    WorkLimit(s);
  }

  predicate NoFaults(ls: seq<Label>) {
    forall i :: 0 <= i < |ls| ==> !Faulty(ls[i])
  }

  lemma FaultFreeStep(s: State, ls: seq<Label>)
    requires Inv(s) && ls != [] && Enabled(s, ls[0]) && AllWork(ls) && NoFaults(ls)
    ensures Inv(Next(s, ls[0])) && Work(Next(s, ls[0])) < Work(s)
    ensures AllWork(ls[1..]) && NoFaults(ls[1..])
  {
    assert Works(ls[0]) && !Faulty(ls[0]) && GroupInv(s);
    hide Work, Next, Enabled, Inv;
    StepInv(s, ls[0]);
    StepDecreases(s, ls[0]);
  }

  lemma {:induction false} FaultFreeRun(s: State, ls: seq<Label>, t: State)
    requires Inv(s) && Run(s, ls, t) && AllWork(ls) && NoFaults(ls)
    ensures Work(t) + |ls| <= Work(s)
    decreases |ls|
  {
    hide Inv, Work, AllWork, NoFaults;
    if ls != [] {
      FaultFreeStep(s, ls);
      FaultFreeRun(Next(s, ls[0]), ls[1..], t);
    }
  }

  // ----- Any survivor drains the group -----

  predicate By(l: Label, r: nat) {
    Works(l) && l.r == r
  }

  predicate NoPoison(log: seq<Entry>) {
    forall i :: 0 <= i < |log| ==> !Poison(log[i])
  }

  // While something is undelivered or pending, replica r has a step of its own that is progress.
  lemma SurvivorStep(s: State, r: nat) returns (l: Label)
    requires Inv(s) && s.created && r < |s.workers| && NoPoison(s.log)
    requires !Drained(s) || !s.workers[r].Idle()
    ensures Enabled(s, l) && By(l, r) && !Faulty(l)
  {
    var w := s.workers[r];
    assert WorkerInv(s, w);
    if w.acking.Some? {
      l := Ack(r);
    } else if w.inbox != [] {
      assert !Poison(s.log[w.inbox[0]]);
      l := if Head(s, r).Malformed() then Discard(r) else Handle(r);
    } else if s.pending != map[] {
      var id: nat :| id in s.pending;
      l := Reclaim(r, [id]);
    } else {
      l := ReadNew(r);
    }
  }

  ghost predicate Alive(s: State, r: nat) {
    Inv(s) && s.created && r < |s.workers| && NoPoison(s.log)
  }

  lemma SurvivorAdvances(s: State, r: nat) returns (l: Label, m: State)
    requires Alive(s, r)
    requires !Drained(s) || !s.workers[r].Idle()
    ensures Enabled(s, l) && By(l, r) && !Faulty(l) && m == Next(s, l)
    ensures Alive(m, r) && m.log == s.log && Work(m) < Work(s)
  {
    l := SurvivorStep(s, r);
    m := Next(s, l);
    StepInv(s, l);
    StepKeeps(s, l);
    StepDecreases(s, l);
  }

  ghost predicate AloneWithoutFault(ls: seq<Label>, r: nat) {
    forall i :: 0 <= i < |ls| ==> By(ls[i], r) && !Faulty(ls[i])
  }

  lemma AloneCons(s: State, l: Label, ls: seq<Label>, t: State, r: nat)
    requires Enabled(s, l) && By(l, r) && !Faulty(l)
    requires Run(Next(s, l), ls, t) && AloneWithoutFault(ls, r)
    ensures Run(s, [l] + ls, t) && AloneWithoutFault([l] + ls, r)
  {
    assert ([l] + ls)[1..] == ls;
  }

  // A replica left alone, in a run without faults, gets everything done in at most Work(s) steps.
  lemma {:induction false} SurvivorDrains(s: State, r: nat) returns (ls: seq<Label>, t: State)
    requires Alive(s, r)
    ensures Run(s, ls, t) && Drained(t) && t.log == s.log
    ensures |ls| <= Work(s) && AloneWithoutFault(ls, r)
    decreases Work(s)
  {
    if Drained(s) {
      ls, t := [], s;
    } else {
      var l, m := SurvivorAdvances(s, r);
      var rest;
      rest, t := SurvivorDrains(m, r);
      AloneCons(s, l, rest, t, r);
      ls := [l] + rest;
    }
  }

  ghost predicate CanDrain(s: State) {
    exists ls, t :: Run(s, ls, t) && AllWork(ls) && Drained(t)
  }

  lemma {:induction false} LogFixed(s: State, ls: seq<Label>, t: State)
    requires Run(s, ls, t) && AllWork(ls)
    ensures t.log == s.log
    decreases |ls|
  {
    if ls != [] {
      assert Works(ls[0]);
      LogFixed(Next(s, ls[0]), ls[1..], t);
    }
  }

  // The replicas can drain the group exactly when the stream holds no poison entry.
  lemma DrainsIff(s: State)
    requires Reachable(s) && s.created && |s.workers| > 0
    ensures CanDrain(s) <==> NoPoison(s.log)
  {
    ReachableInv(s);
    if NoPoison(s.log) {
      var ls, t := SurvivorDrains(s, 0);
      assert AllWork(ls);
    }
    if CanDrain(s) {
      var ls, t :| Run(s, ls, t) && AllWork(ls) && Drained(t);
      var batch: nat, replicas: nat, before :| batch > 0 && Run(Init(batch, replicas), before, s);
      RunConcat(Init(batch, replicas), before, s, ls, t);
      LogFixed(s, ls, t);
      forall i | 0 <= i < |s.log| ensures !Poison(s.log[i]) {
        if Poison(s.log[i]) { PoisonBlocks(t, i); }
      }
    }
  }
}
