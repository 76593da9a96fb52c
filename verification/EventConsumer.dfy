// The consumer as the program it is: the server's state is updated in place by one call at a time, and
// the replica's loop reads, dispatches and acknowledges. Every method is proved to be a run of the
// state machine in ConsumerGroup, so the theorems about runs hold of it.
module EventConsumer {
  import opened Wrappers
  import opened Events
  import opened Expectations
  import opened ConsumerGroup
  import opened GroupSafety
  import opened GroupDrain

  // What goes wrong with one acknowledgement: nothing, or the call raises, with or without effect.
  datatype AckFault = AckOk | AckRaises(removed: bool)

  datatype Outcome = Outcome(handler: Fault, ack: AckFault)

  lemma {:induction false} FirstPending(pending: map<nat, nat>, n: nat)
    requires forall id: nat :: id in pending ==> PendingBelow(pending, id) > 0
    ensures PendingBelow(pending, n) == 0
  {
    if n > 0 { FirstPending(pending, n - 1); }
  }

  // Whatever is pending, the first such entry has none before it.
  lemma NonePending(pending: map<nat, nat>)
    requires forall id: nat :: id in pending ==> PendingBelow(pending, id) > 0
    ensures pending == map[]
  {
    forall id: nat | id in pending ensures false {
      FirstPending(pending, id);
    }
    assert pending.Keys == {};
  }

  // The shared stream and group, and the table behind the handlers.
  class Cluster {
    const batch: nat
    const store: ExpectationStore
    var log: seq<Entry>
    var created: bool
    var delivered: nat
    var pending: map<nat, nat>
    ghost var workers: seq<Worker>
    ghost var deliveries: seq<Delivery>
    ghost var done: seq<nat>
    ghost var returned: set<nat>
    ghost var acked: set<nat>

    ghost function View(): State
      reads this, store
    {
      State(batch, log, created, delivered, pending, workers, store.table, deliveries, done, returned, acked)
    }

    constructor (batch: nat, ghost replicas: nat)
      requires batch > 0
      ensures View() == Init(batch, replicas) && Inv(View()) && fresh(store)
    {
      this.batch, log, created, delivered, pending := batch, [], false, 0, map[];
      workers, deliveries, done, returned, acked := Init(batch, replicas).workers, [], [], {}, {};
      store := new ExpectationStore();
      new;
      InitInv(batch, replicas);
    }

    method XAdd(entry: Entry)
      modifies this
      ensures View() == Next(old(View()), Announce(entry))
    {
      log := log + [entry];
    }

    // Whether another replica had already created the group.
    method XGroupCreate() returns (busy: bool)
      modifies this
      ensures busy == old(created) && View() == Next(old(View()), EnsureGroup)
    {
      busy, created := created, true;
    }

    method XReadGroup(r: nat) returns (messages: seq<nat>)
      requires Inv(View()) && created && r < |workers| && workers[r].Idle()
      modifies this
      ensures messages == old(NewIds(View()))
      ensures |messages| == if old(|log| - delivered) < batch then old(|log| - delivered) else batch
      ensures forall i :: 0 <= i < |messages| ==> messages[i] == old(delivered) + i
      ensures messages == [] ==> View() == old(View())
      ensures messages != [] ==> Enabled(old(View()), ReadNew(r)) && View() == Next(old(View()), ReadNew(r))
    {
      var first := delivered;
      var n := if |log| - first < batch then |log| - first else batch;
      messages := seq(n, i => first + i);
      assert messages == NewIds(View());
      if n > 0 {
        pending := Claimed(pending, messages, r);
        delivered := delivered + n;
        workers := workers[r := Worker(messages, None)];
        deliveries := deliveries + seq(n, i requires 0 <= i < n => Delivery(messages[i], r));
      }
    }

    // Scans the pending list from its beginning, at most ten entries for each one asked for. `end` is where
    // the scan stopped.
    method Scan(idle: nat -> bool) returns (messages: seq<nat>, ghost end: nat)
      requires forall id :: id in pending ==> id < delivered
      ensures StrictlyIncreasing(messages) && |messages| <= batch
      ensures FirstIdle(View(), idle, messages, end)
    {
      messages := [];
      var id, examined := 0, 0;
      while id < delivered && |messages| < batch && examined < 10 * batch
        invariant 0 <= id <= delivered && |messages| <= batch && examined == PendingBelow(pending, id) <= 10 * batch
        invariant StrictlyIncreasing(messages) && forall i :: 0 <= i < |messages| ==> messages[i] < id
        invariant forall k: nat :: k in messages <==> k in pending && idle(k) && k < id
      {
        if id in pending {
          examined := examined + 1;
          if idle(id) {
            messages := messages + [id];
          }
        }
        id := id + 1;
      }
      end := id;
    }

    // Takes over the first idle entries that the scan finds, up to a batch.
    method XAutoClaim(r: nat, idle: nat -> bool) returns (messages: seq<nat>, ghost end: nat)
      requires Inv(View()) && created && r < |workers| && workers[r].Idle()
      modifies this
      ensures FirstIdle(old(View()), idle, messages, end)
      ensures messages == [] ==> View() == old(View())
      ensures messages != [] ==>
        Enabled(old(View()), Reclaim(r, messages)) && View() == Next(old(View()), Reclaim(r, messages))
    {
      messages, end := Scan(idle);
      if messages != [] {
        assert forall i :: 0 <= i < |messages| ==> messages[i] in pending;
        pending := Claimed(pending, messages, r);
        workers := workers[r := Worker(messages, None)];
      }
    }

    // The reply to a call does not arrive: the replica knows of no batch.
    ghost method LoseReply(r: nat)
      requires r < |workers|
      modifies this`workers
      ensures View() == Next(old(View()), Crash(r))
    {
      workers := workers[r := NoWork()];
    }

    method XAck(r: nat, id: nat, fault: AckFault) returns (ok: bool)
      requires r < |workers| && workers[r].acking == Some(id)
      modifies this
      ensures ok <==> fault.AckOk?
      ensures pending == if fault.AckOk? || fault.removed then old(pending) - {id} else old(pending)
      ensures View() == Next(old(View()), if fault.AckOk? then Ack(r) else AckFails(r, fault.removed))
    {
      ok := fault.AckOk?;
      if (ok || fault.removed) && id in pending {
        pending := pending - {id};
        acked := acked + {id};
      }
      workers := workers[r := if ok then Worker(workers[r].inbox, None) else NoWork()];
    }
  }

  // ----- What dispatching a batch comes to -----

  predicate HandlerOk(e: Entry, o: Outcome) {
    Handleable(e) && (o.handler.NoFault? || ChangeOf(e).Nothing?)
  }

  predicate Commits(e: Entry, o: Outcome) {
    Handleable(e) && (HandlerOk(e, o) || o.handler.AfterCommit?)
  }

  predicate AckSent(e: Entry, o: Outcome) {
    e.Malformed() || HandlerOk(e, o)
  }

  predicate Settles(e: Entry, o: Outcome) {
    AckSent(e, o) && (o.ack.AckOk? || o.ack.removed)
  }

  // The batch is abandoned after this entry.
  predicate Aborts(e: Entry, o: Outcome) {
    e.NotAnObject? || (AckSent(e, o) && !o.ack.AckOk?)
  }

  predicate Indices(messages: seq<nat>, n: nat) {
    forall i :: 0 <= i < |messages| ==> messages[i] < n
  }

  // The entries, among the first n of the batch, whose change reached the table.
  function Effective(log: seq<Entry>, messages: seq<nat>, outcome: nat -> Outcome, n: nat): seq<nat>
    requires n <= |messages| && Indices(messages, |log|)
  {
    if n == 0 then []
    else Effective(log, messages, outcome, n - 1)
         + (if Commits(log[messages[n - 1]], outcome(n - 1)) then [messages[n - 1]] else [])
  }

  // The entries, among the first n of the batch, that left the pending list.
  function Settled(log: seq<Entry>, messages: seq<nat>, outcome: nat -> Outcome, n: nat): set<nat>
    requires n <= |messages| && Indices(messages, |log|)
  {
    set i | 0 <= i < n && Settles(log[messages[i]], outcome(i)) :: messages[i]
  }

  lemma SettledMore(log: seq<Entry>, messages: seq<nat>, outcome: nat -> Outcome, n: nat)
    requires n < |messages| && Indices(messages, |log|)
    ensures Settled(log, messages, outcome, n + 1) ==
      Settled(log, messages, outcome, n) + (if Settles(log[messages[n]], outcome(n)) then {messages[n]} else {})
  {
  }

  ghost predicate RunBy(s: State, trace: seq<Label>, t: State, r: nat) {
    Run(s, trace, t) && forall i :: 0 <= i < |trace| ==> By(trace[i], r)
  }

  // Dispatching a batch fetches nothing.
  predicate NoFetch(trace: seq<Label>) {
    forall i :: 0 <= i < |trace| ==> !trace[i].ReadNew? && !trace[i].Reclaim?
  }

  // At most one reclaim, then at most one read, each followed by the dispatching of its batch.
  predicate ReclaimsThenReads(trace: seq<Label>) {
    forall i, j :: 0 <= i < j < |trace| ==> !trace[j].Reclaim? && (trace[i].ReadNew? ==> !trace[j].ReadNew?)
  }

  lemma RunByConcat(s: State, trace: seq<Label>, m: State, more: seq<Label>, t: State, r: nat)
    requires RunBy(s, trace, m, r) && RunBy(m, more, t, r)
    ensures RunBy(s, trace + more, t, r)
  {
    RunConcat(s, trace, m, more, t);
  }

  lemma RunByCons(s: State, l: Label, trace: seq<Label>, t: State, r: nat)
    requires Enabled(s, l) && By(l, r) && RunBy(Next(s, l), trace, t, r)
    ensures RunBy(s, [l] + trace, t, r)
  {
    assert ([l] + trace)[1..] == trace;
  }

  // ----- One message, as steps -----

  function HandlingLabel(s: State, r: nat, o: Outcome): Label
    requires HasHead(s, r)
  {
    if Head(s, r).Malformed() then Discard(r)
    else if HandlerOk(Head(s, r), o) then Handle(r)
    else Fail(r, Commits(Head(s, r), o))
  }

  function AckLabel(r: nat, fault: AckFault): Label {
    if fault.AckOk? then Ack(r) else AckFails(r, fault.removed)
  }

  function MessageLabels(s: State, r: nat, o: Outcome): seq<Label>
    requires HasHead(s, r)
  {
    [HandlingLabel(s, r, o)] + if AckSent(Head(s, r), o) then [AckLabel(r, o.ack)] else []
  }

  function AfterMessage(s: State, r: nat, o: Outcome): State
    requires HasHead(s, r)
  {
    var m := Next(s, HandlingLabel(s, r, o));
    if AckSent(Head(s, r), o) then Next(m, AckLabel(r, o.ack)) else m
  }

  lemma HandlingEffect(s: State, r: nat, o: Outcome)
    requires HasHead(s, r)
    ensures Enabled(s, HandlingLabel(s, r, o))
    ensures var t, id, e := Next(s, HandlingLabel(s, r, o)), s.workers[r].inbox[0], Head(s, r);
      && t.log == s.log && t.created == s.created && t.pending == s.pending
      && t.workers == s.workers[r := if e.NotAnObject? then NoWork()
                                     else Worker(s.workers[r].inbox[1..], if AckSent(e, o) then Some(id) else None)]
      && t.done == s.done + (if Commits(e, o) then [id] else [])
  {
  }

  lemma AckEffect(s: State, r: nat, fault: AckFault)
    requires r < |s.workers| && s.workers[r].acking.Some?
    ensures Enabled(s, AckLabel(r, fault))
    ensures var t, id := Next(s, AckLabel(r, fault)), s.workers[r].acking.value;
      && t.log == s.log && t.created == s.created && t.done == s.done
      && t.workers == s.workers[r := if fault.AckOk? then Worker(s.workers[r].inbox, None) else NoWork()]
      && t.pending == s.pending - (if fault.AckOk? || fault.removed then {id} else {})
  {
  }

  lemma LabelsBy(s: State, r: nat, o: Outcome)
    requires HasHead(s, r)
    ensures By(HandlingLabel(s, r, o), r) && By(AckLabel(r, o.ack), r)
    ensures AckSent(Head(s, r), o) ==> AckSentState(Next(s, HandlingLabel(s, r, o)), r)
  {
  }

  predicate AckSentState(s: State, r: nat) {
    r < |s.workers| && s.workers[r].acking.Some?
  }

  lemma MessageRun(s: State, r: nat, o: Outcome)
    requires Inv(s) && HasHead(s, r)
    ensures Inv(AfterMessage(s, r, o)) && RunBy(s, MessageLabels(s, r, o), AfterMessage(s, r, o), r)
  {
    var l, t := HandlingLabel(s, r, o), AfterMessage(s, r, o);
    var m := Next(s, l);
    HandlingEffect(s, r, o);
    LabelsBy(s, r, o);
    hide Inv, Next, Enabled, By, HandlingLabel, AckLabel;
    StepInv(s, l);
    assert RunBy(t, [], t, r);
    if AckSent(Head(s, r), o) {
      AckEffect(m, r, o.ack);
      StepInv(m, AckLabel(r, o.ack));
      RunByCons(m, AckLabel(r, o.ack), [], t, r);
      RunByCons(s, l, [AckLabel(r, o.ack)] + [], t, r);
      assert [l] + ([AckLabel(r, o.ack)] + []) == MessageLabels(s, r, o);
    } else {
      RunByCons(s, l, [], t, r);
    }
  }

  // A settled entry leaves the pending list whoever owns it by then; an abandoned batch is dropped.
  lemma MessageEffect(s: State, r: nat, o: Outcome)
    requires HasHead(s, r)
    ensures var t, id, e := AfterMessage(s, r, o), s.workers[r].inbox[0], Head(s, r);
      && t.log == s.log && t.created == s.created
      && t.workers == s.workers[r := if Aborts(e, o) then NoWork() else Worker(s.workers[r].inbox[1..], None)]
      && t.done == s.done + (if Commits(e, o) then [id] else [])
      && t.pending == s.pending - (if Settles(e, o) then {id} else {})
  {
    HandlingEffect(s, r, o);
    if AckSent(Head(s, r), o) {
      AckEffect(Next(s, HandlingLabel(s, r, o)), r, o.ack);
    }
  }

  // Nothing goes wrong with this message.
  predicate Smooth(e: Entry, o: Outcome) {
    !Poison(e) && o.handler.NoFault? && o.ack.AckOk?
  }

  predicate AllSmooth(log: seq<Entry>, messages: seq<nat>, outcome: nat -> Outcome)
    requires Indices(messages, |log|)
  {
    forall i :: 0 <= i < |messages| ==> Smooth(log[messages[i]], outcome(i))
  }

  ghost predicate ReadyIn(s: State, r: nat) {
    Inv(s) && s.created && r < |s.workers| && s.workers[r].Idle()
  }

  // The first n messages of a batch have been dealt with, between states s and t.
  ghost predicate Batch(s: State, messages: seq<nat>, outcome: nat -> Outcome, n: nat, t: State) {
    && n <= |messages| && Indices(messages, |s.log|) && t.log == s.log
    && t.done == s.done + Effective(s.log, messages, outcome, n)
    && t.pending == s.pending - Settled(s.log, messages, outcome, n)
  }

  lemma BatchMore(s: State, messages: seq<nat>, outcome: nat -> Outcome, n: nat, t: State, r: nat)
    requires Batch(s, messages, outcome, n, t) && n < |messages|
    requires HasHead(t, r) && t.workers[r].inbox[0] == messages[n]
    ensures Batch(s, messages, outcome, n + 1, AfterMessage(t, r, outcome(n)))
  {
    MessageEffect(t, r, outcome(n));
    SettledMore(s.log, messages, outcome, n);
  }

  lemma ClaimedReady(s: State, r: nat, ids: seq<nat>)
    requires Inv(s) && Enabled(s, Reclaim(r, ids))
    ensures var t := Next(s, Reclaim(r, ids));
      Inv(t) && t.created && |t.workers| == |s.workers| && t.workers[r] == Worker(ids, None)
  {
    StepInv(s, Reclaim(r, ids));
  }

  lemma FetchedReady(s: State, r: nat)
    requires Inv(s) && Enabled(s, ReadNew(r))
    ensures var t := Next(s, ReadNew(r));
      Inv(t) && t.created && |t.workers| == |s.workers| && t.workers[r] == Worker(NewIds(s), None)
  {
    StepInv(s, ReadNew(r));
  }

  // Messages n, n + 1, ... of the batch are still to be dealt with.
  ghost predicate Dispatching(s: State, messages: seq<nat>, outcome: nat -> Outcome, n: nat,
                              trace: seq<Label>, t: State, r: nat) {
    && Inv(t) && t.created && RunBy(s, trace, t, r)
    && Batch(s, messages, outcome, n, t)
    && r < |t.workers| && t.workers[r] == Worker(messages[n..], None)
    && (forall i :: 0 <= i < n ==> !Aborts(s.log[messages[i]], outcome(i)))
    && (AllSmooth(s.log, messages, outcome) ==> NoFaults(trace))
    && NoFetch(trace)
  }

  // The batch has been gone through, or abandoned after `reached` messages, between states s and t.
  ghost predicate Dispatched(s: State, messages: seq<nat>, outcome: nat -> Outcome, ok: bool, reached: nat,
                             trace: seq<Label>, t: State, r: nat) {
    && ReadyIn(t, r) && RunBy(s, trace, t, r)
    && Batch(s, messages, outcome, reached, t)
    && (forall i :: 0 <= i < reached - (if ok then 0 else 1) ==> !Aborts(s.log[messages[i]], outcome(i)))
    && (if ok then reached == |messages|
        else reached > 0 && Aborts(s.log[messages[reached - 1]], outcome(reached - 1)))
    && (AllSmooth(s.log, messages, outcome) ==> ok && NoFaults(trace))
    && NoFetch(trace)
  }

  lemma DispatchingStarts(s: State, messages: seq<nat>, outcome: nat -> Outcome, r: nat)
    requires Inv(s) && s.created && r < |s.workers| && s.workers[r] == Worker(messages, None)
    ensures Dispatching(s, messages, outcome, 0, [], s, r)
  {
    assert WorkerInv(s, s.workers[r]);
  }

  lemma DispatchingHead(s: State, messages: seq<nat>, outcome: nat -> Outcome, n: nat,
                        trace: seq<Label>, t: State, r: nat)
    requires Dispatching(s, messages, outcome, n, trace, t, r) && n < |messages|
    ensures HasHead(t, r) && t.workers[r].inbox[0] == messages[n] && Head(t, r) == s.log[messages[n]]
  {
  }

  lemma SmoothLabels(s: State, r: nat, o: Outcome)
    requires HasHead(s, r) && Smooth(Head(s, r), o)
    ensures NoFaults(MessageLabels(s, r, o)) && !Aborts(Head(s, r), o)
  {
  }

  lemma MessageFetchesNothing(s: State, r: nat, o: Outcome)
    requires HasHead(s, r)
    ensures NoFetch(MessageLabels(s, r, o))
  {
  }

  // One message further, or abandoned.
  lemma DispatchingGoesOn(s: State, messages: seq<nat>, outcome: nat -> Outcome, n: nat, trace: seq<Label>, t: State,
                          more: seq<Label>, u: State, r: nat)
    requires Dispatching(s, messages, outcome, n, trace, t, r) && n < |messages|
    requires Inv(u) && u.created && RunBy(s, more, u, r) && Batch(s, messages, outcome, n + 1, u)
    requires u.workers == t.workers[r := if Aborts(s.log[messages[n]], outcome(n)) then NoWork()
                                         else Worker(messages[n + 1..], None)]
    requires AllSmooth(s.log, messages, outcome) ==> NoFaults(more) && !Aborts(s.log[messages[n]], outcome(n))
    requires NoFetch(more)
    ensures if Aborts(s.log[messages[n]], outcome(n)) then Dispatched(s, messages, outcome, false, n + 1, more, u, r)
            else Dispatching(s, messages, outcome, n + 1, more, u, r)
  {
    hide Inv, RunBy, AllSmooth, NoFaults, NoFetch, Aborts, Effective, Settled;
  }

  lemma NoFetchConcat(trace: seq<Label>, more: seq<Label>)
    requires NoFetch(trace) && NoFetch(more)
    ensures NoFetch(trace + more)
  {
  }

  lemma SmoothSoFar(s: State, messages: seq<nat>, outcome: nat -> Outcome, n: nat, trace: seq<Label>, t: State, r: nat)
    requires Dispatching(s, messages, outcome, n, trace, t, r) && n < |messages| && HasHead(t, r)
    requires Head(t, r) == s.log[messages[n]] && AllSmooth(s.log, messages, outcome)
    ensures NoFaults(trace + MessageLabels(t, r, outcome(n))) && !Aborts(s.log[messages[n]], outcome(n))
  {
    SmoothLabels(t, r, outcome(n));
    hide Inv, RunBy, Batch, MessageLabels;
  }

  lemma DispatchingMore(s: State, messages: seq<nat>, outcome: nat -> Outcome, n: nat,
                        trace: seq<Label>, t: State, r: nat)
    requires Dispatching(s, messages, outcome, n, trace, t, r) && n < |messages|
    ensures HasHead(t, r)
    ensures var u, more := AfterMessage(t, r, outcome(n)), trace + MessageLabels(t, r, outcome(n));
      if Aborts(s.log[messages[n]], outcome(n)) then Dispatched(s, messages, outcome, false, n + 1, more, u, r)
      else Dispatching(s, messages, outcome, n + 1, more, u, r)
  {
    DispatchingHead(s, messages, outcome, n, trace, t, r);
    MessageRun(t, r, outcome(n));
    MessageEffect(t, r, outcome(n));
    BatchMore(s, messages, outcome, n, t, r);
    RunByConcat(s, trace, t, MessageLabels(t, r, outcome(n)), AfterMessage(t, r, outcome(n)), r);
    MessageFetchesNothing(t, r, outcome(n));
    NoFetchConcat(trace, MessageLabels(t, r, outcome(n)));
    if AllSmooth(s.log, messages, outcome) { SmoothSoFar(s, messages, outcome, n, trace, t, r); }
    hide Inv, RunBy, Batch, AllSmooth, NoFaults, NoFetch, AfterMessage, MessageLabels, Aborts;
    DispatchingGoesOn(s, messages, outcome, n, trace, t,
                      trace + MessageLabels(t, r, outcome(n)), AfterMessage(t, r, outcome(n)), r);
  }

  // A batch was fetched by step l, and dispatched: gone through, or abandoned at its first message that
  // aborts.
  ghost predicate Fetched(s: State, l: Label, messages: seq<nat>, outcome: nat -> Outcome, ok: bool, reached: nat,
                          trace: seq<Label>, t: State, r: nat) {
    && Enabled(s, l) && !Faulty(l) && RunBy(s, trace, t, r) && trace != [] && t.log == s.log
    && Dispatched(Next(s, l), messages, outcome, ok, reached, trace[1..], t, r) && trace[0] == l
  }

  lemma FetchedIf(s: State, l: Label, messages: seq<nat>, outcome: nat -> Outcome, ok: bool, reached: nat,
                  rest: seq<Label>, t: State, r: nat)
    requires Enabled(s, l) && l in {ReadNew(r), Reclaim(r, messages)}
    requires Dispatched(Next(s, l), messages, outcome, ok, reached, rest, t, r)
    ensures Fetched(s, l, messages, outcome, ok, reached, [l] + rest, t, r)
  {
    RunByCons(s, l, rest, t, r);
    assert ([l] + rest)[1..] == rest;
  }

  // The server carried out step l, but its reply was lost.
  ghost predicate Forgotten(s: State, l: Label, trace: seq<Label>, t: State, r: nat) {
    Enabled(s, l) && Enabled(Next(s, l), Crash(r)) && trace == [l, Crash(r)] && t == Next(Next(s, l), Crash(r))
  }

  lemma ForgottenIf(s: State, l: Label, m: State, r: nat)
    requires Enabled(s, l) && m == Next(s, l) && r < |m.workers|
    ensures Enabled(m, Crash(r)) && Forgotten(s, l, [l, Crash(r)], Next(m, Crash(r)), r)
  {
  }

  // A claim works, is refused by the server, does not reach it, or is carried out but not answered.
  datatype ClaimFault = ClaimOk | Refused | Unreachable | ClaimReplyLost

  // A read works, is not carried out, or is carried out but not answered.
  datatype ReadFault = ReadOk | ReadFails | ReadReplyLost

  // What one iteration of the consumer loop meets.
  datatype Iteration = Iteration(
    claim: ClaimFault, idle: nat -> bool, claimed: nat -> Outcome, read: ReadFault, arrived: nat -> Outcome)

  // Nothing fails, every pending entry has been idle long enough, and no handler raises.
  ghost predicate Untroubled(env: Iteration) {
    && env.claim.ClaimOk? && env.read.ReadOk?
    && (forall id :: env.idle(id))
    && forall i :: env.claimed(i) == env.arrived(i) == Outcome(NoFault, AckOk)
  }

  lemma SmoothStep(s: State, trace: seq<Label>, t: State, r: nat)
    requires Inv(s) && RunBy(s, trace, t, r) && NoFaults(trace)
    ensures Work(t) + |trace| <= Work(s)
    ensures Drained(s) ==> Drained(t)
  {
    assert AllWork(trace);
    FaultFreeRun(s, trace, t);
    if Drained(s) { DrainedStays(s, trace, t); }
  }

  lemma {:induction false} DrainedStays(s: State, trace: seq<Label>, t: State)
    requires Run(s, trace, t) && AllWork(trace) && Drained(s)
    ensures Drained(t)
    decreases |trace|
  {
    if trace != [] {
      assert Works(trace[0]);
      DrainedStays(Next(s, trace[0]), trace[1..], t);
    }
  }

  // Part of an iteration led from s to t. If it is not empty it fetches first, and only then.
  ghost predicate Part(s: State, trace: seq<Label>, t: State, r: nat) {
    && ReadyIn(t, r) && RunBy(s, trace, t, r) && t.log == s.log && (trace == [] ==> t == s)
    && (trace != [] ==> NoFetch(trace[1..]))
  }

  // One iteration led from s to t; if nothing troubled it, it had no faults, and did nothing only if
  // there was nothing to do.
  ghost predicate Iterated(s: State, env: Iteration, trace: seq<Label>, t: State, r: nat) {
    && ReadyIn(t, r) && RunBy(s, trace, t, r) && t.log == s.log
    && (Untroubled(env) && NoPoison(s.log) ==> NoFaults(trace) && (trace == [] ==> Drained(t)))
    && ReclaimsThenReads(trace)
  }

  lemma SmoothBatch(log: seq<Entry>, messages: seq<nat>, outcome: nat -> Outcome)
    requires Indices(messages, |log|) && NoPoison(log)
    requires forall i :: outcome(i) == Outcome(NoFault, AckOk)
    ensures AllSmooth(log, messages, outcome)
  {
  }

  lemma NothingDone(s: State, r: nat)
    requires ReadyIn(s, r)
    ensures Part(s, [], s, r)
  {
  }

  lemma FetchedPart(s: State, l: Label, messages: seq<nat>, outcome: nat -> Outcome, ok: bool, reached: nat,
                    trace: seq<Label>, t: State, r: nat)
    requires Fetched(s, l, messages, outcome, ok, reached, trace, t, r)
    ensures Part(s, trace, t, r) && trace != []
    ensures (forall i :: outcome(i) == Outcome(NoFault, AckOk)) && NoPoison(s.log) ==> ok && NoFaults(trace)
  {
    if (forall i :: outcome(i) == Outcome(NoFault, AckOk)) && NoPoison(s.log) {
      SmoothBatch(t.log, messages, outcome);
    }
  }

  lemma CrashEffect(s: State, r: nat)
    requires Inv(s) && r < |s.workers|
    ensures var t := Next(s, Crash(r));
      Inv(t) && t.log == s.log && t.created == s.created && |t.workers| == |s.workers| && t.workers[r].Idle()
  {
    StepInv(s, Crash(r));
  }

  lemma ForgottenPart(s: State, l: Label, trace: seq<Label>, t: State, r: nat)
    requires Inv(s) && s.created && By(l, r) && r < |s.workers| && Forgotten(s, l, trace, t, r)
    ensures Part(s, trace, t, r) && trace != []
  {
    var m := Next(s, l);
    StepInv(s, l);
    StepKeeps(s, l);
    CrashEffect(m, r);
    hide Inv, Next, Enabled;
    assert RunBy(t, [], t, r);
    RunByCons(m, Crash(r), [], t, r);
    RunByCons(s, l, [Crash(r)] + [], t, r);
    assert [l] + ([Crash(r)] + []) == trace;
  }

  lemma FetchesInOrder(first: seq<Label>, second: seq<Label>)
    requires first != [] ==> first[0].Reclaim? && NoFetch(first[1..])
    requires second != [] ==> second[0].ReadNew? && NoFetch(second[1..])
    ensures ReclaimsThenReads(first + second)
  {
    forall j | 0 < j < |first| ensures !first[j].ReadNew? && !first[j].Reclaim? {
      assert first[j] == first[1..][j - 1];
    }
    forall j | 0 < j < |second| ensures !second[j].ReadNew? && !second[j].Reclaim? {
      assert second[j] == second[1..][j - 1];
    }
  }

  lemma IteratedIf(s: State, env: Iteration, first: seq<Label>, m: State, second: seq<Label>, t: State, r: nat)
    requires Part(s, first, m, r) && Part(m, second, t, r)
    requires (first != [] ==> first[0].Reclaim?) && (second != [] ==> second[0].ReadNew?)
    requires Untroubled(env) && NoPoison(s.log) ==>
               NoFaults(first) && NoFaults(second) && (first == [] && second == [] ==> Drained(t))
    ensures Iterated(s, env, first + second, t, r)
  {
    hide Inv, Run, Untroubled, NoPoison, Drained;
    RunByConcat(s, first, m, second, t, r);
    FetchesInOrder(first, second);
  }

  // What the claim comes to. Untroubled, it does nothing only if nothing is pending.
  lemma ReclaimedPart(s: State, env: Iteration, messages: seq<nat>, ok: bool, reached: nat,
                      trace: seq<Label>, t: State, r: nat)
    requires ReadyIn(s, r)
    requires if messages == [] then trace == [] && t == s && (ok <==> env.claim.ClaimOk? || env.claim.Refused?)
             else if env.claim.ClaimReplyLost? then !ok && Forgotten(s, Reclaim(r, messages), trace, t, r)
             else Fetched(s, Reclaim(r, messages), messages, env.claimed, ok, reached, trace, t, r)
    requires env.claim.ClaimOk? ==> |messages| == s.batch || LeftBehind(s, env.idle, messages)
    ensures Part(s, trace, t, r) && (trace != [] ==> trace[0].Reclaim?)
    ensures Untroubled(env) && NoPoison(s.log) ==> ok && NoFaults(trace) && (trace == [] ==> t.pending == map[])
  {
    if messages == [] {
      NothingDone(s, r);
      if Untroubled(env) { NonePending(s.pending); }
    } else if env.claim.ClaimReplyLost? {
      ForgottenPart(s, Reclaim(r, messages), trace, t, r);
    } else {
      FetchedPart(s, Reclaim(r, messages), messages, env.claimed, ok, reached, trace, t, r);
    }
  }

  // Idle entries that were not claimed have ten batches of pending ones before them.
  ghost predicate LeftBehind(s: State, idle: nat -> bool, messages: seq<nat>) {
    forall id :: id in s.pending && idle(id) && id !in messages ==> PendingBelow(s.pending, id) >= 10 * s.batch
  }

  lemma ClaimedAll(s: State, idle: nat -> bool, messages: seq<nat>, end: nat)
    requires Inv(s) && FirstIdle(s, idle, messages, end)
    ensures |messages| == s.batch || LeftBehind(s, idle, messages)
  {
    forall id | id in s.pending && idle(id) && id !in messages
      ensures |messages| == s.batch || PendingBelow(s.pending, id) >= 10 * s.batch
    {
      MorePendingBelow(s.pending, end, id);
    }
  }

  // What the read comes to.
  lemma ReadPart(s: State, env: Iteration, ok: bool, reached: nat, trace: seq<Label>, t: State, r: nat)
    requires ReadyIn(s, r)
    requires if trace == [] then t == s && (ok <==> env.read.ReadOk?)
             else if env.read.ReadReplyLost? then !ok && Forgotten(s, ReadNew(r), trace, t, r)
             else Fetched(s, ReadNew(r), NewIds(s), env.arrived, ok, reached, trace, t, r)
    ensures Part(s, trace, t, r) && (trace != [] ==> trace[0].ReadNew?)
    ensures Untroubled(env) && NoPoison(s.log) ==> NoFaults(trace)
  {
    if trace == [] {
      NothingDone(s, r);
    } else if env.read.ReadReplyLost? {
      ForgottenPart(s, ReadNew(r), trace, t, r);
    } else {
      FetchedPart(s, ReadNew(r), NewIds(s), env.arrived, ok, reached, trace, t, r);
    }
  }

  ghost predicate AllUntroubled(envs: seq<Iteration>) {
    forall i :: 0 <= i < |envs| ==> Untroubled(envs[i])
  }

  ghost predicate Looping(s: State, envs: seq<Iteration>, n: nat, trace: seq<Label>, t: State, r: nat) {
    && ReadyIn(t, r) && RunBy(s, trace, t, r) && t.log == s.log
    && (AllUntroubled(envs) && NoPoison(s.log) ==> Drained(t) || Work(t) + n <= Work(s))
  }

  lemma LoopStarts(s: State, envs: seq<Iteration>, r: nat)
    requires ReadyIn(s, r)
    ensures Looping(s, envs, 0, [], s, r)
  {
  }

  lemma LoopReady(s: State, envs: seq<Iteration>, n: nat, trace: seq<Label>, t: State, r: nat)
    requires Looping(s, envs, n, trace, t, r)
    ensures ReadyIn(t, r)
  {
  }

  lemma LoopMore(s: State, envs: seq<Iteration>, n: nat, trace: seq<Label>, m: State,
                 more: seq<Label>, t: State, r: nat)
    requires n < |envs| && Looping(s, envs, n, trace, m, r) && Iterated(m, envs[n], more, t, r)
    ensures Looping(s, envs, n + 1, trace + more, t, r)
  {
    RunByConcat(s, trace, m, more, t, r);
    if AllUntroubled(envs) && NoPoison(s.log) {
      SmoothStep(m, more, t, r);
    }
  }

  lemma LoopEnds(s: State, envs: seq<Iteration>, trace: seq<Label>, t: State, r: nat)
    requires Looping(s, envs, |envs|, trace, t, r)
    ensures ReadyIn(t, r) && RunBy(s, trace, t, r)
    ensures AllUntroubled(envs) && NoPoison(s.log) && |envs| > Work(s) ==> Drained(t)
  {
  }

  class Consumer {
    const r: nat
    const cluster: Cluster

    constructor (cluster: Cluster, r: nat)
      ensures this.cluster == cluster && this.r == r
    {
      this.cluster, this.r := cluster, r;
    }

    ghost predicate Ready()
      reads cluster, cluster.store
    {
      ReadyIn(cluster.View(), r)
    }

    // Attempts one message. Returns whether it is to be acknowledged.
    method HandleOne(id: nat, o: Outcome) returns (ack: bool)
      requires HasHead(cluster.View(), r) && cluster.workers[r].inbox[0] == id
      modifies cluster, cluster.store
      ensures ack <==> AckSent(old(cluster.log)[id], o)
      ensures cluster.View() == Next(old(cluster.View()), HandlingLabel(old(cluster.View()), r, o))
    {
      var entry := cluster.log[id];
      ghost var w := cluster.workers[r];
      if entry.Malformed() {
        cluster.workers := cluster.workers[r := Worker(w.inbox[1..], Some(id))];
        return true;
      }
      if entry.NotAnObject? {
        cluster.workers := cluster.workers[r := NoWork()];
        return false;
      }
      ack := cluster.store.HandleEvent(entry.event, o.handler);
      if Commits(entry, o) {
        cluster.done := cluster.done + [id];
      }
      if ack {
        cluster.returned := cluster.returned + {id};
      }
      cluster.workers := cluster.workers[r := Worker(w.inbox[1..], if ack then Some(id) else None)];
    }

    // One message: the handler, then the acknowledgement. Returns whether the batch goes on.
    method DispatchOne(id: nat, o: Outcome) returns (more: bool)
      requires HasHead(cluster.View(), r) && cluster.workers[r].inbox[0] == id
      modifies cluster, cluster.store
      ensures more <==> !Aborts(old(cluster.log)[id], o)
      ensures cluster.View() == AfterMessage(old(cluster.View()), r, o)
    {
      var abandons := cluster.log[id].NotAnObject?;
      var ack := HandleOne(id, o);
      if ack {
        more := cluster.XAck(r, id, o.ack);
      } else {
        more := !abandons;
      }
    }

    // Goes through a batch. Returns whether it reached the end, and how many messages it took up.
    method Dispatch(messages: seq<nat>, outcome: nat -> Outcome)
      returns (ok: bool, ghost reached: nat, ghost trace: seq<Label>)
      requires Inv(cluster.View()) && cluster.created
      requires r < |cluster.workers| && cluster.workers[r] == Worker(messages, None)
      modifies cluster, cluster.store
      ensures Dispatched(old(cluster.View()), messages, outcome, ok, reached, trace, cluster.View(), r)
    {
      ghost var s0 := cluster.View();
      DispatchingStarts(s0, messages, outcome, r);
      hide Inv, RunBy, Batch, AllSmooth;
      trace := [];
      var n := 0;
      while n < |messages|
        invariant 0 <= n <= |messages|
        invariant Dispatching(s0, messages, outcome, n, trace, cluster.View(), r)
      {
        ghost var s := cluster.View();
        DispatchingHead(s0, messages, outcome, n, trace, s, r);
        DispatchingMore(s0, messages, outcome, n, trace, s, r);
        trace := trace + MessageLabels(s, r, outcome(n));
        ok := DispatchOne(messages[n], outcome(n));
        n := n + 1;
        if !ok {
          return false, n, trace;
        }
      }
      return true, n, trace;
    }

    method EnsureGroup()
      modifies cluster
      ensures cluster.View() == Next(old(cluster.View()), Label.EnsureGroup)
    {
      var busy := cluster.XGroupCreate();
    }

    // Takes over idle entries and dispatches them. A claim that the server refuses is ignored; any other
    // failure raises. Idle entries that are left lie beyond the server's scan, or beyond a full batch.
    method ReclaimAbandoned(env: Iteration)
      returns (ok: bool, ghost messages: seq<nat>, ghost reached: nat, ghost trace: seq<Label>)
      requires Ready()
      modifies cluster, cluster.store
      ensures if messages == [] then
                && trace == [] && cluster.View() == old(cluster.View())
                && (ok <==> env.claim.ClaimOk? || env.claim.Refused?)
              else if env.claim.ClaimReplyLost? then
                !ok && Forgotten(old(cluster.View()), Reclaim(r, messages), trace, cluster.View(), r)
              else
                Fetched(old(cluster.View()), Reclaim(r, messages), messages, env.claimed, ok, reached,
                        trace, cluster.View(), r)
      ensures env.claim.Refused? || env.claim.Unreachable? ==> messages == []
      ensures forall id :: id in messages ==> env.idle(id)
      ensures env.claim.ClaimOk? || env.claim.ClaimReplyLost? ==>
                |messages| == cluster.batch
                || LeftBehind(old(cluster.View()), env.idle, messages)
    {
      if env.claim.Refused? || env.claim.Unreachable? {
        return env.claim.Refused?, [], 0, [];
      }
      ghost var s0 := cluster.View();
      var claimed;
      ghost var end;
      claimed, end := cluster.XAutoClaim(r, env.idle);
      ClaimedAll(s0, env.idle, claimed, end);
      if claimed == [] {
        return env.claim.ClaimOk?, [], 0, [];
      }
      ClaimedReady(s0, r, claimed);
      hide *;
      messages := claimed;
      if env.claim.ClaimReplyLost? {
        ForgottenIf(s0, Reclaim(r, claimed), cluster.View(), r);
        cluster.LoseReply(r);
        return false, claimed, 0, [Reclaim(r, claimed), Crash(r)];
      }
      ghost var rest;
      ok, reached, rest := Dispatch(claimed, env.claimed);
      FetchedIf(s0, Reclaim(r, claimed), claimed, env.claimed, ok, reached, rest, cluster.View(), r);
      trace := [Reclaim(r, claimed)] + rest;
    }

    // Reads and dispatches entries new to the group.
    method ReadNew(env: Iteration) returns (ok: bool, ghost reached: nat, ghost trace: seq<Label>)
      requires Ready()
      modifies cluster, cluster.store
      ensures if trace == [] then cluster.View() == old(cluster.View()) && (ok <==> env.read.ReadOk?)
              else if env.read.ReadReplyLost? then
                !ok && Forgotten(old(cluster.View()), Label.ReadNew(r), trace, cluster.View(), r)
              else
                Fetched(old(cluster.View()), Label.ReadNew(r), NewIds(old(cluster.View())), env.arrived,
                        ok, reached, trace, cluster.View(), r)
      ensures env.read.ReadFails? ==> trace == []
      ensures !env.read.ReadFails? && trace == [] ==> cluster.delivered == |cluster.log|
    {
      if env.read.ReadFails? {
        return false, 0, [];
      }
      ghost var s0 := cluster.View();
      var messages := cluster.XReadGroup(r);
      if messages == [] {
        return env.read.ReadOk?, 0, [];
      }
      FetchedReady(s0, r);
      hide *;
      if env.read.ReadReplyLost? {
        ForgottenIf(s0, Label.ReadNew(r), cluster.View(), r);
        cluster.LoseReply(r);
        return false, 0, [Label.ReadNew(r), Crash(r)];
      }
      ghost var rest;
      ok, reached, rest := Dispatch(messages, env.arrived);
      FetchedIf(s0, Label.ReadNew(r), messages, env.arrived, ok, reached, rest, cluster.View(), r);
      trace := [Label.ReadNew(r)] + rest;
    }

    // One iteration of the consumer loop. An exception ends it early.
    method Iterate(env: Iteration) returns (ghost trace: seq<Label>)
      requires Ready()
      modifies cluster, cluster.store
      ensures Iterated(old(cluster.View()), env, trace, cluster.View(), r)
    {
      ghost var s0 := cluster.View();
      ghost var messages, reached, first, second;
      var ok;
      ok, messages, reached, first := ReclaimAbandoned(env);
      ghost var s1 := cluster.View();
      ReclaimedPart(s0, env, messages, ok, reached, first, s1, r);
      hide Inv, Fetched, Forgotten, Untroubled, RunBy, NoFaults;
      second := [];
      NothingDone(s1, r);
      if ok {
        ok, reached, second := ReadNew(env);
        ReadPart(s1, env, ok, reached, second, cluster.View(), r);
      }
      IteratedIf(s0, env, first, s1, second, cluster.View(), r);
      trace := first + second;
    }

    // The consumer loop, for as many iterations as it is given. A consumer that is left alone and whose
    // calls succeed drains the group.
    method Loop(envs: seq<Iteration>) returns (ghost trace: seq<Label>)
      requires Ready()
      modifies cluster, cluster.store
      ensures ReadyIn(cluster.View(), r) && RunBy(old(cluster.View()), trace, cluster.View(), r)
      ensures AllUntroubled(envs) && NoPoison(old(cluster.log)) && |envs| > Work(old(cluster.View())) ==>
                Drained(cluster.View())
    {
      ghost var s0 := cluster.View();
      LoopStarts(s0, envs, r);
      hide *;
      trace := [];
      for i := 0 to |envs|
        invariant Looping(s0, envs, i, trace, cluster.View(), r)
      {
        ghost var s := cluster.View();
        LoopReady(s0, envs, i, trace, s, r);
        ghost var step := Iterate(envs[i]);
        LoopMore(s0, envs, i, trace, s, step, cluster.View(), r);
        trace := trace + step;
      }
      LoopEnds(s0, envs, trace, cluster.View(), r);
    }
  }
}
