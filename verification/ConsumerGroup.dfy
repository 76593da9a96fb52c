// The Redis stream, its consumer group, the replicas that consume it, and the table they maintain, as
// one state machine. Every label is one atomic step; any interleaving of steps of any number of
// replicas is a run. The stream is not trimmed. How long an entry has been idle is not modelled: a
// reclaim may take any pending entries.
module ConsumerGroup {
  import opened Wrappers
  import opened Events
  import opened Expectations
  import opened Redelivery

  // What a replica has in its hands: messages fetched but not yet dispatched, and the one whose
  // handling is over but whose acknowledgement is still to be sent.
  datatype Worker = Worker(inbox: seq<nat>, acking: Option<nat>)
  {
    predicate Idle() {
      inbox == [] && acking.None?
    }
  }

  function NoWork(): Worker {
    Worker([], None)
  }

  datatype Delivery = Delivery(entry: nat, replica: nat)

  // The group: entries before `delivered` have been delivered, `pending` holds the owners of those not
  // yet acknowledged. The rest are histories: deliveries as new, handlings whose change took effect (in
  // `done`), entries whose handler returned, and entries that an acknowledgement removed from `pending`.
  datatype State = State(
    batch: nat,
    log: seq<Entry>,
    created: bool,
    delivered: nat,
    pending: map<nat, nat>,
    workers: seq<Worker>,
    table: Table,
    deliveries: seq<Delivery>,
    done: seq<nat>,
    returned: set<nat>,
    acked: set<nat>)

  datatype Label =
    | Announce(entry: Entry)
    | EnsureGroup
    | ReadNew(r: nat)
    | Reclaim(r: nat, ids: seq<nat>)
    | Discard(r: nat)
    | Handle(r: nat)
    | Fail(r: nat, committed: bool)
    | Ack(r: nat)
    | AckFails(r: nat, removed: bool)
    | Crash(r: nat)

  predicate Faulty(l: Label) {
    l.Fail? || l.AckFails? || l.Crash?
  }

  function Init(batch: nat, replicas: nat): State {
    State(batch, [], false, 0, map[], seq(replicas, _ => NoWork()), map[], [], [], {}, {})
  }

  // The change an entry asks for, when its handler can complete.
  function ChangeOf(e: Entry): Change {
    if e.Message? && Interpret(e.event).Some? then Interpret(e.event).value else Nothing
  }

  function Changes(log: seq<Entry>): (cs: seq<Change>)
    ensures |cs| == |log|
    ensures forall i :: 0 <= i < |log| ==> cs[i] == ChangeOf(log[i])
  {
    seq(|log|, i requires 0 <= i < |log| => ChangeOf(log[i]))
  }

  predicate Handleable(e: Entry) {
    e.Message? && Interpret(e.event).Some?
  }

  // No attempt to handle such an entry can succeed.
  predicate Poison(e: Entry) {
    !e.Malformed() && !Handleable(e)
  }

  predicate StrictlyIncreasing(ids: seq<nat>) {
    forall i, j :: 0 <= i < j < |ids| ==> ids[i] < ids[j]
  }

  function Available(s: State): int {
    if |s.log| - s.delivered < s.batch then |s.log| - s.delivered else s.batch
  }

  function NewIds(s: State): (ids: seq<nat>)
    requires s.delivered <= |s.log|
    ensures |ids| == Available(s)
    ensures forall i :: 0 <= i < |ids| ==> ids[i] == s.delivered + i
  {
    seq(Available(s), i => s.delivered + i)
  }

  predicate HasHead(s: State, r: nat) {
    && r < |s.workers| && s.workers[r].acking.None? && s.workers[r].inbox != []
    && s.workers[r].inbox[0] < |s.log|
  }

  function Head(s: State, r: nat): Entry
    requires HasHead(s, r)
  {
    s.log[s.workers[r].inbox[0]]
  }

  predicate Enabled(s: State, l: Label) {
    match l
    case Announce(_) => true
    case EnsureGroup => true
    case ReadNew(r) => s.created && r < |s.workers| && s.workers[r].Idle() && s.delivered <= |s.log| && Available(s) > 0
    case Reclaim(r, ids) =>
      && s.created && r < |s.workers| && s.workers[r].Idle()
      && 0 < |ids| <= s.batch && StrictlyIncreasing(ids) && forall i :: 0 <= i < |ids| ==> ids[i] in s.pending
    case Discard(r) => HasHead(s, r) && Head(s, r).Malformed()
    case Handle(r) => HasHead(s, r) && Handleable(Head(s, r))
    case Fail(r, committed) => HasHead(s, r) && !Head(s, r).Malformed() && (committed ==> Handleable(Head(s, r)))
    case Ack(r) => r < |s.workers| && s.workers[r].acking.Some?
    case AckFails(r, _) => r < |s.workers| && s.workers[r].acking.Some?
    case Crash(r) => r < |s.workers|
  }

  function Claimed(pending: map<nat, nat>, ids: seq<nat>, r: nat): map<nat, nat> {
    map id | id in pending.Keys + (set i | i in ids) :: if id in ids then r else pending[id]
  }

  function Removed(s: State, id: nat): State {
    if id in s.pending then s.(pending := s.pending - {id}, acked := s.acked + {id}) else s
  }

  function Completed(s: State, id: nat): State
    requires id < |s.log|
  {
    s.(table := Apply(s.table, ChangeOf(s.log[id])), done := s.done + [id])
  }

  function Returned(s: State, id: nat): State
    requires id < |s.log|
  {
    Completed(s, id).(returned := s.returned + {id})
  }

  function SetWorker(s: State, r: nat, w: Worker): State
    requires r < |s.workers|
  {
    s.(workers := s.workers[r := w])
  }

  function Next(s: State, l: Label): State
    requires Enabled(s, l)
  {
    match l
    case Announce(e) => s.(log := s.log + [e])
    // The group starts at the beginning of the stream; an existing group is left alone.
    case EnsureGroup => s.(created := true)
    case ReadNew(r) =>
      var ids := NewIds(s);
      SetWorker(s, r, Worker(ids, None))
        .(delivered := s.delivered + |ids|, pending := Claimed(s.pending, ids, r),
          deliveries := s.deliveries + seq(|ids|, i requires 0 <= i < |ids| => Delivery(ids[i], r)))
    case Reclaim(r, ids) =>
      SetWorker(s, r, Worker(ids, None)).(pending := Claimed(s.pending, ids, r))
    case Discard(r) =>
      var w := s.workers[r];
      SetWorker(s, r, Worker(w.inbox[1..], Some(w.inbox[0])))
    case Handle(r) =>
      var w := s.workers[r];
      SetWorker(Returned(s, w.inbox[0]), r, Worker(w.inbox[1..], Some(w.inbox[0])))
    // The failed entry stays pending and the batch goes on, except that logging the failure of an entry
    // that is not an object raises in turn, which abandons the rest of the batch.
    case Fail(r, committed) =>
      var w := s.workers[r];
      var rest := if Head(s, r).NotAnObject? then [] else w.inbox[1..];
      SetWorker(if committed then Completed(s, w.inbox[0]) else s, r, Worker(rest, None))
    case Ack(r) =>
      SetWorker(Removed(s, s.workers[r].acking.value), r, Worker(s.workers[r].inbox, None))
    // The acknowledgement raises, whether or not the server has acted on it: the batch is abandoned.
    case AckFails(r, removed) =>
      SetWorker(if removed then Removed(s, s.workers[r].acking.value) else s, r, NoWork())
    case Crash(r) => SetWorker(s, r, NoWork())
  }

  ghost predicate Run(s: State, ls: seq<Label>, t: State)
    decreases |ls|
  {
    if ls == [] then s == t
    else Enabled(s, ls[0]) && Run(Next(s, ls[0]), ls[1..], t)
  }

  lemma {:induction false} RunConcat(s: State, ls: seq<Label>, m: State, ks: seq<Label>, t: State)
    requires Run(s, ls, m) && Run(m, ks, t)
    ensures Run(s, ls + ks, t)
    decreases |ls|
  {
    if ls == [] {
      assert [] + ks == ks;
    } else {
      RunConcat(Next(s, ls[0]), ls[1..], m, ks, t);
      assert (ls + ks)[1..] == ls[1..] + ks;
    }
  }

  // ----- What a claim by idle time takes -----

  // How many of the entries before n are pending.
  function PendingBelow(pending: map<nat, nat>, n: nat): nat {
    if n == 0 then 0 else PendingBelow(pending, n - 1) + if n - 1 in pending then 1 else 0
  }

  lemma {:induction false} MorePendingBelow(pending: map<nat, nat>, n: nat, m: nat)
    requires n <= m
    ensures PendingBelow(pending, n) <= PendingBelow(pending, m)
  {
    if n < m { MorePendingBelow(pending, n, m - 1); }
  }

  // The idle pending entries up to where the scan ends: at a full batch, when ten entries for each one asked
  // for have been examined, or when there are no more.
  ghost predicate FirstIdle(s: State, idle: nat -> bool, messages: seq<nat>, end: nat) {
    && (forall id :: id in messages <==> id in s.pending && idle(id) && id < end)
    && (end == s.delivered || |messages| == s.batch || PendingBelow(s.pending, end) == 10 * s.batch)
  }

  // ----- The invariant -----

  predicate Accounted(e: Entry, id: nat, returned: set<nat>) {
    e.Malformed() || id in returned
  }

  ghost predicate GroupInv(s: State) {
    && s.batch > 0
    && s.delivered <= |s.log|
    && (!s.created ==> s.delivered == 0)
    && (forall id :: id in s.pending || id in s.acked <==> 0 <= id < s.delivered)
    && s.pending.Keys !! s.acked
    && (forall id :: id in s.pending ==> s.pending[id] < |s.workers|)
  }

  ghost predicate WorkerInv(s: State, w: Worker) {
    && StrictlyIncreasing(w.inbox)
    && (forall i :: 0 <= i < |w.inbox| ==> w.inbox[i] < s.delivered)
    && (w.acking.Some? ==> w.acking.value < s.delivered <= |s.log|
                           && Accounted(s.log[w.acking.value], w.acking.value, s.returned))
  }

  ghost predicate HistoryInv(s: State) {
    && s.delivered <= |s.log|
    && Within(s.done, s.delivered)
    && (forall j :: 0 <= j < |s.done| ==> Handleable(s.log[s.done[j]]))
    && (forall id :: id in s.returned ==> id in s.done)
    && s.table == ApplyAll(Pick(Changes(s.log), s.done))
    && (forall id :: id in s.acked ==> id < s.delivered && Accounted(s.log[id], id, s.returned))
    && |s.deliveries| == s.delivered
    && (forall k :: 0 <= k < s.delivered ==> s.deliveries[k].entry == k && s.deliveries[k].replica < |s.workers|)
  }

  ghost predicate Inv(s: State) {
    && GroupInv(s)
    && HistoryInv(s)
    && (forall r :: 0 <= r < |s.workers| ==> WorkerInv(s, s.workers[r]))
  }

  lemma InitInv(batch: nat, replicas: nat)
    requires batch > 0
    ensures Inv(Init(batch, replicas))
  {
    assert Pick(Changes([]), []) == [];
  }

  lemma TableKept(s: State, e: Entry)
    requires HistoryInv(s)
    ensures HistoryInv(s.(log := s.log + [e]))
  {
    assert Pick(Changes(s.log + [e]), s.done) == Pick(Changes(s.log), s.done);
  }

  lemma CompletedHistory(s: State, id: nat)
    requires HistoryInv(s) && id < s.delivered && Handleable(s.log[id])
    ensures HistoryInv(Completed(s, id)) && HistoryInv(Returned(s, id))
  {
    var cs := Changes(s.log);
    PickSnoc(cs, s.done, id);
    ApplyAllSnoc(Pick(cs, s.done), cs[id]);
  }

  lemma CompletedInv(s: State, id: nat)
    requires Inv(s) && id < s.delivered && Handleable(s.log[id])
    ensures Inv(Completed(s, id)) && Inv(Returned(s, id)) && Accounted(s.log[id], id, Returned(s, id).returned)
  {
    CompletedHistory(s, id);
    forall r | 0 <= r < |s.workers|
      ensures WorkerInv(Completed(s, id), s.workers[r]) && WorkerInv(Returned(s, id), s.workers[r])
    {
      assert WorkerInv(s, s.workers[r]);
    }
  }

  lemma RemovedInv(s: State, id: nat)
    requires Inv(s) && id < s.delivered && Accounted(s.log[id], id, s.returned)
    ensures Inv(Removed(s, id))
  {
    forall r | 0 <= r < |s.workers| ensures WorkerInv(Removed(s, id), s.workers[r]) {
      assert WorkerInv(s, s.workers[r]);
    }
  }

  lemma SetWorkerInv(s: State, r: nat, w: Worker)
    requires Inv(s) && r < |s.workers| && WorkerInv(s, w)
    ensures Inv(SetWorker(s, r, w))
  {
    var t := SetWorker(s, r, w);
    forall k | 0 <= k < |t.workers| ensures WorkerInv(t, t.workers[k]) {
      assert WorkerInv(s, s.workers[k]);
    }
  }

  lemma ReadNewInv(s: State, r: nat)
    requires Inv(s) && Enabled(s, ReadNew(r))
    ensures Inv(Next(s, ReadNew(r)))
  {
    var t := Next(s, ReadNew(r));
    var ids := NewIds(s);
    forall id ensures id in ids <==> s.delivered <= id < t.delivered {
      if s.delivered <= id < t.delivered { assert ids[id - s.delivered] == id; }
    }
    forall k | 0 <= k < |t.workers| ensures WorkerInv(t, t.workers[k]) {
      assert WorkerInv(s, s.workers[k]);
    }
  }

  lemma ReclaimInv(s: State, r: nat, ids: seq<nat>)
    requires Inv(s) && Enabled(s, Reclaim(r, ids))
    ensures Inv(Next(s, Reclaim(r, ids)))
  {
    var t := Next(s, Reclaim(r, ids));
    assert t.pending.Keys == s.pending.Keys;
    forall k | 0 <= k < |t.workers| ensures WorkerInv(t, t.workers[k]) {
      assert WorkerInv(s, s.workers[k]);
      if k == r {
        forall i | 0 <= i < |ids| ensures ids[i] < s.delivered { assert ids[i] in s.pending; }
      }
    }
  }

  lemma DispatchInv(s: State, r: nat, l: Label)
    requires Inv(s) && Enabled(s, l) && HasHead(s, r) && l in {Discard(r), Handle(r), Fail(r, false), Fail(r, true)}
    ensures Inv(Next(s, l))
  {
    assert WorkerInv(s, s.workers[r]);
    var id := s.workers[r].inbox[0];
    var m := if l.Handle? then Returned(s, id) else if l.Fail? && l.committed then Completed(s, id) else s;
    if m != s { CompletedInv(s, id); }
    var w := Next(s, l).workers[r];
    assert Next(s, l) == SetWorker(m, r, w);
    assert WorkerInv(m, w);
    SetWorkerInv(m, r, w);
  }

  lemma AckInv(s: State, r: nat, l: Label)
    requires Inv(s) && Enabled(s, l) && l in {Ack(r), AckFails(r, false), AckFails(r, true)}
    ensures Inv(Next(s, l))
  {
    assert WorkerInv(s, s.workers[r]);
    var id := s.workers[r].acking.value;
    var m := if l.Ack? || l.removed then Removed(s, id) else s;
    RemovedInv(s, id);
    var w := Next(s, l).workers[r];
    assert Next(s, l) == SetWorker(m, r, w);
    assert WorkerInv(m, w);
    SetWorkerInv(m, r, w);
  }

  lemma AnnounceInv(s: State, e: Entry)
    requires Inv(s)
    ensures Inv(s.(log := s.log + [e])) && Inv(s.(created := true))
  {
    TableKept(s, e);
    forall r | 0 <= r < |s.workers|
      ensures WorkerInv(s.(log := s.log + [e]), s.workers[r]) && WorkerInv(s.(created := true), s.workers[r])
    {
      assert WorkerInv(s, s.workers[r]);
    }
  }

  // The safety invariant survives every step of every replica.
  lemma StepInv(s: State, l: Label)
    requires Inv(s) && Enabled(s, l)
    ensures Inv(Next(s, l))
  {
    match l
    case Announce(e) => AnnounceInv(s, e);
    case EnsureGroup => AnnounceInv(s, NoData);
    case ReadNew(r) => ReadNewInv(s, r);
    case Reclaim(r, ids) => ReclaimInv(s, r, ids);
    case Discard(r) => DispatchInv(s, r, l);
    case Handle(r) => DispatchInv(s, r, l);
    case Fail(r, committed) => DispatchInv(s, r, l);
    case Ack(r) => AckInv(s, r, l);
    case AckFails(r, removed) => AckInv(s, r, l);
    case Crash(r) => SetWorkerInv(s, r, NoWork());
  }

  lemma {:induction false} RunInv(s: State, ls: seq<Label>, t: State)
    requires Inv(s) && Run(s, ls, t)
    ensures Inv(t)
    decreases |ls|
  {
    if ls != [] {
      StepInv(s, ls[0]);
      RunInv(Next(s, ls[0]), ls[1..], t);
    }
  }
}
