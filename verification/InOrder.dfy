// Which runs handle the stream in order. A replica that works alone, takes what is left over before what
// is new, and whose handlers do not fail does so, however often it crashes or an acknowledgement fails. The
// loop takes leftovers first only if they are idle by then; GroupSafety.RestartedOutOfOrder is what follows
// otherwise.
module InOrder {
  import opened Wrappers
  import opened Events
  import opened Expectations
  import opened Redelivery
  import opened ConsumerGroup
  import opened GroupSafety
  import opened GroupDrain
  import opened RolloutPipeline
  import opened PolicyService

  // The claimed entries are the first pending ones.
  predicate Lowest(pending: map<nat, nat>, ids: seq<nat>) {
    forall id :: id in pending ==> id in ids || forall i :: 0 <= i < |ids| ==> ids[i] < id
  }

  // A step of the publisher, or of the one replica that is at work.
  predicate Orderly(s: State, l: Label, r: nat) {
    match l
    case Announce(entry) => !entry.Malformed()
    case EnsureGroup => true
    case ReadNew(q) => q == r && s.pending == map[]
    case Reclaim(q, ids) => q == r && Lowest(s.pending, ids)
    case Discard(q) => q == r
    case Handle(q) => q == r
    case Fail(_, _) => false
    case Ack(q) => q == r
    case AckFails(q, _) => q == r
    case Crash(q) => q == r
  }

  predicate NoneMalformed(log: seq<Entry>) {
    forall i :: 0 <= i < |log| ==> !log[i].Malformed()
  }

  // From the first entry on, each handling is of the same entry again or of the next one.
  predicate Marches(order: seq<nat>) {
    && (order != [] ==> order[0] == 0)
    && forall j :: 0 < j < |order| ==> SameOrNext(order, j)
  }

  predicate SameOrNext(order: seq<nat>, j: int)
    requires 0 < j < |order|
  {
    order[j - 1] <= order[j] <= order[j - 1] + 1
  }

  // What was handled last is entry a or the one before.
  predicate HandledUpTo(done: seq<nat>, a: nat) {
    Marches(done) && if done == [] then a == 0 else done[|done| - 1] in {a, a - 1}
  }

  // The batch goes on from entry a, or from the next one if a awaits its acknowledgement.
  predicate HoldsFrom(w: Worker, done: seq<nat>, a: nat) {
    if w.acking.Some? then w.acking.value == a && done != [] && done[|done| - 1] == a && Interval(w.inbox, a + 1)
    else Interval(w.inbox, a)
  }

  predicate Interval(ids: seq<nat>, a: nat) {
    forall i :: 0 <= i < |ids| ==> ids[i] == a + i
  }

  // Exactly the delivered entries from a on are pending.
  ghost predicate PendingFrom(pending: map<nat, nat>, a: nat, end: nat) {
    a <= end && forall id :: id in pending <==> a <= id < end
  }

  ghost predicate InOrderUpTo(s: State, r: nat, a: nat) {
    && r < |s.workers| && NoneMalformed(s.log) && PendingFrom(s.pending, a, s.delivered)
    && HandledUpTo(s.done, a) && HoldsFrom(s.workers[r], s.done, a)
  }

  lemma {:induction false} LowestIsInterval(pending: map<nat, nat>, a: nat, end: nat, ids: seq<nat>, i: nat)
    requires PendingFrom(pending, a, end) && Lowest(pending, ids) && StrictlyIncreasing(ids) && i < |ids|
    requires forall k :: 0 <= k < |ids| ==> ids[k] in pending
    ensures ids[i] == a + i
  {
    if i > 0 { LowestIsInterval(pending, a, end, ids, i - 1); }
    assert ids[i] in pending;
    if ids[i] > a + i {
      assert a + i in pending;
      var k :| 0 <= k < |ids| && ids[k] == a + i;
      assert false;
    }
  }

  lemma ReadInOrder(s: State, r: nat, a: nat)
    requires InOrderUpTo(s, r, a) && Enabled(s, ReadNew(r)) && s.pending == map[]
    ensures InOrderUpTo(Next(s, ReadNew(r)), r, a)
  {
    var t, ids := Next(s, ReadNew(r)), NewIds(s);
    assert a !in s.pending && a == s.delivered;
    forall id: nat ensures id in ids <==> a <= id < t.delivered {
      if a <= id < t.delivered { assert ids[id - a] == id; }
    }
    assert t.pending.Keys == set id | id in ids;
  }

  lemma ReclaimInOrder(s: State, r: nat, ids: seq<nat>, a: nat)
    requires InOrderUpTo(s, r, a) && Enabled(s, Reclaim(r, ids)) && Lowest(s.pending, ids)
    ensures InOrderUpTo(Next(s, Reclaim(r, ids)), r, a)
  {
    forall i | 0 <= i < |ids| ensures ids[i] == a + i {
      LowestIsInterval(s.pending, a, s.delivered, ids, i);
    }
    assert Next(s, Reclaim(r, ids)).pending.Keys == s.pending.Keys;
  }

  lemma MarchesOn(done: seq<nat>, a: nat)
    requires HandledUpTo(done, a)
    ensures HandledUpTo(done + [a], a)
  {
    var order := done + [a];
    forall j | 0 < j < |order| ensures SameOrNext(order, j) {
      assert j < |done| ==> SameOrNext(done, j);
    }
  }

  lemma HandleInOrder(s: State, r: nat, a: nat)
    requires InOrderUpTo(s, r, a) && Enabled(s, Handle(r))
    ensures InOrderUpTo(Next(s, Handle(r)), r, a)
  {
    var t := Next(s, Handle(r));
    assert s.workers[r].inbox[0] == a && t.done == s.done + [a];
    MarchesOn(s.done, a);
  }

  lemma AckEffect(s: State, r: nat, l: Label, id: nat)
    requires Enabled(s, l) && l in {Ack(r), AckFails(r, true), AckFails(r, false)}
    requires s.workers[r].acking == Some(id) && id in s.pending
    ensures var t := Next(s, l);
      && t.log == s.log && t.done == s.done && t.delivered == s.delivered && |t.workers| == |s.workers|
      && t.pending == (if l.Ack? || l.removed then s.pending - {id} else s.pending)
      && t.workers[r] == (if l.Ack? then Worker(s.workers[r].inbox, None) else NoWork())
  {
  }

  lemma AwaitedIsDelivered(s: State, r: nat)
    requires Inv(s) && r < |s.workers| && s.workers[r].acking.Some?
    ensures s.workers[r].acking.value < s.delivered
  {
    assert WorkerInv(s, s.workers[r]);
  }

  lemma AckEnabled(s: State, r: nat, l: Label)
    requires Enabled(s, l) && l in {Ack(r), AckFails(r, true), AckFails(r, false)}
    ensures r < |s.workers| && s.workers[r].acking.Some?
  {
  }

  lemma Advanced(pending: map<nat, nat>, done: seq<nat>, w: Worker, a: nat, end: nat)
    requires PendingFrom(pending, a, end) && a < end && HandledUpTo(done, a) && HoldsFrom(w, done, a) && w.acking.Some?
    ensures PendingFrom(pending - {a}, a + 1, end) && HandledUpTo(done, a + 1)
    ensures HoldsFrom(Worker(w.inbox, None), done, a + 1)
    ensures HoldsFrom(NoWork(), done, a + 1) && HoldsFrom(NoWork(), done, a)
  {
  }

  // An acknowledgement, whether or not the server acts on it and the replica hears of it.
  lemma AckInOrder(s: State, r: nat, a: nat, l: Label) returns (b: nat)
    requires Inv(s) && InOrderUpTo(s, r, a) && Enabled(s, l) && s.workers[r].acking.Some?
    requires l in {Ack(r), AckFails(r, true), AckFails(r, false)}
    ensures InOrderUpTo(Next(s, l), r, b)
  {
    b := if l.Ack? || l.removed then a + 1 else a;
    AwaitedIsDelivered(s, r);
    Advanced(s.pending, s.done, s.workers[r], a, s.delivered);
    assert s.workers[r].acking == Some(a) && a in s.pending;
    hide Inv, Next, Enabled, NoneMalformed, PendingFrom, HandledUpTo, HoldsFrom;
    AckEffect(s, r, l, a);
  }

  lemma DropInOrder(s: State, r: nat, a: nat)
    requires InOrderUpTo(s, r, a)
    ensures InOrderUpTo(Next(s, Crash(r)), r, a)
  {
  }

  lemma NothingToDiscard(s: State, r: nat)
    requires NoneMalformed(s.log)
    ensures !Enabled(s, Discard(r))
  {
  }

  // Whatever orderly step is taken, handling goes on in order.
  lemma StepInOrder(s: State, l: Label, r: nat, a: nat) returns (b: nat)
    requires Inv(s) && InOrderUpTo(s, r, a) && Enabled(s, l) && Orderly(s, l, r)
    ensures InOrderUpTo(Next(s, l), r, b)
  {
    hide Inv, Next, Enabled, PendingFrom, HandledUpTo, HoldsFrom;
    b := a;
    match l
    case Announce(e) => PublishInOrder(s, e, r, a);
    case EnsureGroup => PublishInOrder(s, NoData, r, a);
    case ReadNew(_) => ReadInOrder(s, r, a);
    case Reclaim(_, ids) => ReclaimInOrder(s, r, ids, a);
    case Discard(_) => NothingToDiscard(s, r);
    case Handle(_) => HandleInOrder(s, r, a);
    case Ack(_) => AckEnabled(s, r, l); b := AckInOrder(s, r, a, l);
    case AckFails(_, _) => AckEnabled(s, r, l); b := AckInOrder(s, r, a, l);
    case Crash(_) => DropInOrder(s, r, a);
  }

  lemma PublishInOrder(s: State, e: Entry, r: nat, a: nat)
    requires InOrderUpTo(s, r, a)
    ensures !e.Malformed() ==> InOrderUpTo(Next(s, Announce(e)), r, a)
    ensures InOrderUpTo(Next(s, EnsureGroup), r, a)
  {
  }

  // Once everything was handled, a march through the entries is in stream order with replays.
  lemma MarchIsForward(order: seq<nat>, n: nat)
    requires Marches(order) && Within(order, n) && forall i :: 0 <= i < n ==> i in order
    ensures ForwardWithReplays(order, n)
  {
    forall j | 0 < j < |order| ensures NoLeap(order, j) {
      assert SameOrNext(order, j);
    }
    if n > 0 {
      assert n - 1 in order;
      var j :| 0 <= j < |order| && order[j] == n - 1;
      MarchGrows(order, j, |order| - 1);
    }
  }

  lemma {:induction false} MarchGrows(order: seq<nat>, i: nat, j: nat)
    requires Marches(order) && i <= j < |order|
    ensures order[i] <= order[j]
  {
    if i < j {
      MarchGrows(order, i, j - 1);
      assert SameOrNext(order, j);
    }
  }

  // ----- The pipeline -----

  // A history in which one replica consumes in an orderly way, and anything goes at the Policy Service.
  ghost predicate OrderlyHistory(s: System, actions: seq<Action>, t: System, r: nat)
    decreases |actions|
  {
    if actions == [] then s == t
    else
      && Possible(s, actions[0]) && (actions[0].Consume? ==> Orderly(s.group, actions[0].l, r))
      && OrderlyHistory(Act(s, actions[0]), actions[1..], t, r)
  }

  lemma ServeInOrder(s: System, req: Request, bus: Bus, db: Db, r: nat, a: nat)
    requires Fresh(s.source, req) && InOrderUpTo(s.group, r, a)
    ensures InOrderUpTo(Act(s, Serve(req, bus, db)).group, r, a)
  {
    var sent := Sent(s.source, req, bus, db);
    if sent != [] { PublishInOrder(s.group, sent[0], r, a); }
  }

  lemma ActInOrder(s: System, action: Action, r: nat, a: nat) returns (b: nat)
    requires SystemInv(s) && InOrderUpTo(s.group, r, a) && Possible(s, action)
    requires action.Consume? ==> Orderly(s.group, action.l, r)
    ensures SystemInv(Act(s, action)) && InOrderUpTo(Act(s, action).group, r, b)
  {
    ReachableInv(s.group);
    hide SystemInv, Inv, InOrderUpTo, Next, Enabled, Sent, After, Loses;
    match action
    case Serve(req, bus, db) =>
      ServeInv(s, req, bus, db);
      ServeInOrder(s, req, bus, db, r, a);
      b := a;
    case Restart =>
      RestartInv(s);
      b := a;
    case Consume(l) =>
      ConsumeInv(s, l);
      b := StepInOrder(s.group, l, r, a);
  }

  lemma {:induction false} HistoryInOrder(s: System, actions: seq<Action>, t: System, r: nat, a: nat) returns (b: nat)
    requires SystemInv(s) && InOrderUpTo(s.group, r, a) && OrderlyHistory(s, actions, t, r)
    ensures History(s, actions, t) && SystemInv(t) && InOrderUpTo(t.group, r, b)
    decreases |actions|
  {
    hide SystemInv, InOrderUpTo;
    if actions == [] {
      b := a;
    } else {
      var m := ActInOrder(s, actions[0], r, a);
      b := HistoryInOrder(Act(s, actions[0]), actions[1..], t, r, m);
    }
  }

  // With no change lost, and every entry handled by a replica that is orderly, the expectations of every
  // group are what its devices are told, exactly if every announced publication was recorded.
  lemma OrderlyReplicaProjects(batch: nat, replicas: nat, actions: seq<Action>, s: System, r: nat)
    requires batch > 0 && r < replicas && OrderlyHistory(Start(batch, replicas), actions, s, r)
    requires s.lost == 0 && !s.goneBack && AllHandled(s.group)
    ensures ForwardWithReplays(s.group.done, |s.group.log|)
    ensures (forall g :: Active(s.group.table, g) == ForGroup(s.source, g)) <==> (forall id :: !Unrecorded(s, id))
  {
    var s0 := Start(batch, replicas);
    StartInv(batch, replicas);
    var _ := HistoryInOrder(s0, actions, s, r, 0);
    ReachableInv(s.group);
    MarchIsForward(s.group.done, |s.group.log|);
    ProjectionInOrder(s);
  }
}
