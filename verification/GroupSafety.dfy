// What the consumer group guarantees over whole runs, whatever its replicas do.
module GroupSafety {
  import opened Wrappers
  import opened Events
  import opened Expectations
  import opened Redelivery
  import opened ConsumerGroup

  predicate Drained(s: State) {
    s.delivered == |s.log| && s.pending == map[]
  }

  ghost predicate Reachable(s: State) {
    exists batch: nat, replicas: nat, ls :: batch > 0 && Run(Init(batch, replicas), ls, s)
  }

  lemma ReachableInv(s: State)
    requires Reachable(s)
    ensures Inv(s)
  {
    var batch: nat, replicas: nat, ls :| batch > 0 && Run(Init(batch, replicas), ls, s);
    InitInv(batch, replicas);
    RunInv(Init(batch, replicas), ls, s);
  }

  // ----- Every entry has one status, and is delivered as new once -----

  predicate Undelivered(s: State, id: nat) {
    s.delivered <= id
  }

  // Each entry is undelivered, pending with one owner, or acknowledged; never two of these. Once
  // delivered, it was delivered as new to one replica, once.
  lemma EntryStatus(s: State, id: nat)
    requires Reachable(s) && id < |s.log|
    ensures Undelivered(s, id) ==> id !in s.pending && id !in s.acked
    ensures !Undelivered(s, id) ==> (id in s.pending <==> id !in s.acked)
    ensures id in s.pending ==> s.pending[id] < |s.workers|
    ensures !Undelivered(s, id) <==> exists k :: 0 <= k < |s.deliveries| && s.deliveries[k].entry == id
    ensures forall j, k :: 0 <= j < k < |s.deliveries| ==> s.deliveries[j].entry != s.deliveries[k].entry
  {
    ReachableInv(s);
    if !Undelivered(s, id) {
      assert s.deliveries[id].entry == id;
    }
  }

  // ----- Who owns a pending entry -----

  // The replica that the step makes the owner of the entry, if any: it reads the entry as new, being among
  // the next `batch` ones, or claims it.
  function Taker(s: State, l: Label, id: nat): Option<nat> {
    if l.ReadNew? && s.delivered <= id < |s.log| && id < s.delivered + s.batch then Some(l.r)
    else if l.Reclaim? && id in l.ids then Some(l.r)
    else None
  }

  // The last replica to have read or claimed the entry in a run.
  ghost function LastTaker(s: State, ls: seq<Label>, t: State, id: nat): Option<nat>
    requires Run(s, ls, t)
    decreases |ls|
  {
    if ls == [] then None
    else
      var later := LastTaker(Next(s, ls[0]), ls[1..], t, id);
      if later.Some? then later else Taker(s, ls[0], id)
  }

  lemma StepOwner(s: State, l: Label, id: nat)
    requires GroupInv(s) && Enabled(s, l) && id in Next(s, l).pending
    ensures if Taker(s, l, id).Some? then Next(s, l).pending[id] == Taker(s, l, id).value
            else id in s.pending && Next(s, l).pending[id] == s.pending[id]
  {
    if l.ReadNew? {
      var ids := NewIds(s);
      forall k: nat ensures k in ids <==> s.delivered <= k < s.delivered + |ids| {
        if s.delivered <= k < s.delivered + |ids| { assert ids[k - s.delivered] == k; }
      }
    }
  }

  lemma {:induction false} RunOwner(s: State, ls: seq<Label>, t: State, id: nat)
    requires Inv(s) && Run(s, ls, t) && id in t.pending
    ensures if LastTaker(s, ls, t, id).Some? then t.pending[id] == LastTaker(s, ls, t, id).value
            else id in s.pending && t.pending[id] == s.pending[id]
    decreases |ls|
  {
    if ls != [] {
      var m := Next(s, ls[0]);
      StepInv(s, ls[0]);
      RunOwner(m, ls[1..], t, id);
      if id in m.pending { StepOwner(s, ls[0], id); }
    }
  }

  // In every run, a pending entry is owned by the replica that read or claimed it last.
  lemma OwnerTookItLast(batch: nat, replicas: nat, ls: seq<Label>, s: State, id: nat)
    requires batch > 0 && Run(Init(batch, replicas), ls, s) && id in s.pending
    ensures LastTaker(Init(batch, replicas), ls, s, id) == Some(s.pending[id])
  {
    InitInv(batch, replicas);
    RunOwner(Init(batch, replicas), ls, s, id);
  }

  // Nothing is acknowledged unread: an acknowledged entry was malformed, or its handler took effect and
  // returned; a handling that committed and then raised does not suffice.
  lemma AcknowledgedWasHandled(s: State, id: nat)
    requires Reachable(s) && id in s.acked
    ensures id < |s.log|
    ensures s.log[id].Malformed() || (Handleable(s.log[id]) && id in s.returned && id in s.done)
  {
    ReachableInv(s);
    if !s.log[id].Malformed() {
      var j :| 0 <= j < |s.done| && s.done[j] == id;
    }
  }

  // ----- What never goes back -----

  predicate Precedes(s: State, t: State) {
    && s.log <= t.log
    && s.delivered <= t.delivered
    && s.deliveries <= t.deliveries
    && s.done <= t.done
    && s.returned <= t.returned
    && s.acked <= t.acked
    && (forall id :: id in s.table ==> id in t.table && s.table[id].version <= t.table[id].version)
  }

  lemma StepPrecedes(s: State, l: Label)
    requires Enabled(s, l)
    ensures Precedes(s, Next(s, l))
  {
  }

  // An entry once acknowledged stays so, and no expected version ever decreases, along any run.
  lemma {:induction false} RunPrecedes(s: State, ls: seq<Label>, t: State)
    requires Run(s, ls, t)
    ensures Precedes(s, t)
    decreases |ls|
  {
    if ls != [] {
      var m := Next(s, ls[0]);
      StepPrecedes(s, ls[0]);
      RunPrecedes(m, ls[1..], t);
    }
  }

  // ----- Drained groups -----

  lemma DrainedCovers(s: State)
    requires Reachable(s) && Drained(s)
    ensures Within(s.done, |s.log|) && Covers(Changes(s.log), s.done)
    ensures s.table == ApplyAll(Pick(Changes(s.log), s.done))
  {
    ReachableInv(s);
    forall i | 0 <= i < |s.log| && !Changes(s.log)[i].Nothing? ensures i in s.done {
      assert i in s.acked;
      AcknowledgedWasHandled(s, i);
    }
  }

  // Whatever failed, crashed, was reclaimed or was handled twice: when nothing is undelivered or
  // pending, every announced policy is expected at the maximum version in the stream.
  lemma DrainedVersions(s: State, id: string)
    requires Reachable(s) && Drained(s)
    ensures id in s.table <==> Announced(Changes(s.log), id)
    ensures id in s.table ==> MaxVersion(Changes(s.log), id, s.table[id].version)
  {
    DrainedCovers(s);
    VersionsIgnoreOrder(Changes(s.log), s.done, id);
  }

  // The other columns follow the order of handling: the row is what handling the stream in order would
  // give exactly when the handling had the same ending.
  lemma DrainedRowIff(s: State, id: string)
    requires Reachable(s) && Drained(s)
    ensures Within(s.done, |s.log|)
    ensures id in s.table <==> id in ApplyAll(Changes(s.log))
    ensures id in s.table ==>
      (s.table[id] == ApplyAll(Changes(s.log))[id] <==> SameEnding(Changes(s.log), s.done, id))
  {
    DrainedCovers(s);
    RowIsExactIff(Changes(s.log), s.done, id);
  }

  // Even before that, a version is never beyond what the stream announced.
  lemma VersionsAreAnnounced(s: State, id: string)
    requires Reachable(s) && id in s.table
    ensures exists i :: 0 <= i < |s.log| && UpsertOf(ChangeOf(s.log[i]), id)
                        && ChangeOf(s.log[i]).version == s.table[id].version
  {
    ReachableInv(s);
    var cs := Pick(Changes(s.log), s.done);
    TableMeaning(cs, id);
    var k: nat :| Describes(cs, id, k, s.table[id]);
    var j :| 0 <= j < |cs| && UpsertOf(cs[j], id) && cs[j].version == s.table[id].version;
    assert UpsertOf(ChangeOf(s.log[s.done[j]]), id);
  }

  // A group never drains past an entry that its handler cannot complete.
  lemma PoisonBlocks(s: State, id: nat)
    requires Reachable(s) && id < |s.log| && Poison(s.log[id])
    ensures !Drained(s) && id !in s.acked
  {
    ReachableInv(s);
    if id in s.acked {
      AcknowledgedWasHandled(s, id);
    }
  }

  // ----- Draining does not by itself make the table right -----

  function Version1(): Entry {
    Message(Event(PolicyPublished, Given(Payload(Given("p"), Given("n"), Given("g"), Given(1), Given("1")))))
  }

  function Version2(): Entry {
    Message(Event(PolicyUpdated, Given(Payload(Given("p"), Given("n"), Given("g"), Given(2), Given("2")))))
  }

  // One replica, two events and one handler failure are enough: the failed first event is reclaimed
  // after the second was handled, and leaves version 2 with the settings of version 1.
  lemma DrainedOutOfOrder() returns (s: State)
    ensures Reachable(s) && Drained(s)
    ensures s.log == [Version1(), Version2()] && s.done == [1, 0]
    ensures s.table == map["p" := Row(Content("n", "g", "1"), 2, true)]
    ensures ApplyAll(Changes(s.log)) == map["p" := Row(Content("n", "g", "2"), 2, true)]
  {
    InOrderTable();
    hide Run, Drained, FirstFailed, Version1, Version2, Changes;
    var a, m, b;
    a, m := FirstHandledLate();
    b, s := FailedOneReclaimed(m);
    RunConcat(Init(50, 1), a, m, b, s);
  }

  lemma InOrderTable()
    ensures ApplyAll(Changes([Version1(), Version2()])) == map["p" := Row(Content("n", "g", "2"), 2, true)]
  {
    TableOfTwo(ChangeOf(Version1()), ChangeOf(Version2()));
    assert Changes([Version1(), Version2()]) == [ChangeOf(Version1()), ChangeOf(Version2())];
  }

  ghost predicate FirstFailed(m: State) {
    && m.batch == 50 && m.log == [Version1(), Version2()] && m.created && m.delivered == 2
    && m.workers == [NoWork()] && m.pending.Keys == {0} && m.done == [1]
    && m.table == map["p" := Row(Content("n", "g", "2"), 2, true)]
  }

  lemma TwoAnnounced() returns (ls: seq<Label>, s: State)
    ensures s == Init(50, 1).(log := [Version1(), Version2()], created := true)
    ensures Run(Init(50, 1), ls, s)
  {
    ls := [Announce(Version1()), Announce(Version2()), EnsureGroup];
    var s1 := Next(Init(50, 1), ls[0]);
    var s2 := Next(s1, ls[1]);
    s := Next(s2, ls[2]);
    assert Run(s2, ls[2..], s);
    assert Run(s1, ls[1..], s) by { assert ls[1..][1..] == ls[2..]; }
  }

  lemma FirstHandledLate() returns (ls: seq<Label>, m: State)
    ensures Run(Init(50, 1), ls, m) && FirstFailed(m)
  {
    var before, s := TwoAnnounced();
    var after;
    after, m := SecondHandled(s);
    RunConcat(Init(50, 1), before, s, after, m);
    ls := before + after;
  }

  lemma SecondHandled(s: State) returns (ls: seq<Label>, m: State)
    requires s == Init(50, 1).(log := [Version1(), Version2()], created := true)
    ensures Run(s, ls, m) && FirstFailed(m)
  {
    var s4 := Next(s, ReadNew(0));
    assert NewIds(s) == [0, 1] && s4.pending.Keys == {0, 1};
    var s5 := Next(s4, Fail(0, false));
    assert s5 == s4.(workers := [Worker([1], None)]);
    ls, m := RestHandled(s5);
    ls := [ReadNew(0), Fail(0, false)] + ls;
    assert ls[1..][1..] == ls[2..];
    assert Run(s4, ls[1..], m);
  }

  lemma RestHandled(s: State) returns (ls: seq<Label>, m: State)
    requires s.batch == 50 && s.log == [Version1(), Version2()] && s.created && s.delivered == 2
    requires s.pending.Keys == {0, 1} && s.workers == [Worker([1], None)] && s.table == map[] && s.done == []
    ensures ls == [Handle(0), Ack(0)] && Run(s, ls, m) && FirstFailed(m)
  {
    var s1 := Next(s, Handle(0));
    assert s1.workers[0] == Worker([], Some(1));
    m := Next(s1, Ack(0));
    ls := [Handle(0), Ack(0)];
    assert Run(s1, ls[1..], m);
  }

  function FirstAnnounced(): State {
    Init(50, 1).(log := [Version1()], created := true)
  }

  lemma OneAnnounced() returns (ls: seq<Label>)
    ensures ls == [Announce(Version1()), EnsureGroup] && Run(Init(50, 1), ls, FirstAnnounced())
  {
    ls := [Announce(Version1()), EnsureGroup];
    var s1 := Next(Init(50, 1), ls[0]);
    assert FirstAnnounced() == Next(s1, EnsureGroup);
    assert Run(FirstAnnounced(), [], FirstAnnounced()) && ls[1..][1..] == [];
    assert Run(s1, ls[1..], FirstAnnounced());
  }

  lemma ReadAndRestarted() returns (s: State)
    ensures Enabled(FirstAnnounced(), ReadNew(0))
    ensures Enabled(Next(FirstAnnounced(), ReadNew(0)), Crash(0))
    ensures s == Next(Next(Next(FirstAnnounced(), ReadNew(0)), Crash(0)), Announce(Version2()))
    ensures s.batch == 50 && s.log == [Version1(), Version2()] && s.created && s.delivered == 1
    ensures s.pending.Keys == {0} && s.workers == [NoWork()] && s.table == map[] && s.done == []
  {
    var s3 := Next(FirstAnnounced(), ReadNew(0));
    assert NewIds(FirstAnnounced()) == [0] && s3.pending.Keys == {0};
    s := Next(Next(s3, Crash(0)), Announce(Version2()));
  }

  lemma SecondRead(s: State) returns (t: State)
    requires s.batch == 50 && s.log == [Version1(), Version2()] && s.created && s.delivered == 1
    requires s.pending.Keys == {0} && s.workers == [NoWork()] && s.table == map[] && s.done == []
    ensures Enabled(s, ReadNew(0)) && t == Next(s, ReadNew(0))
    ensures t.batch == 50 && t.log == [Version1(), Version2()] && t.created && t.delivered == 2
    ensures t.pending.Keys == {0, 1} && t.workers == [Worker([1], None)] && t.table == map[] && t.done == []
  {
    t := Next(s, ReadNew(0));
    assert NewIds(s) == [1];
  }

  // The first event is read, the replica restarts before it handles it, and the second event is read and
  // handled before the first has been idle for long enough to be reclaimed.
  lemma ReadTwice() returns (ls: seq<Label>, s: State)
    ensures ls == [Announce(Version1()), EnsureGroup, ReadNew(0), Crash(0), Announce(Version2()), ReadNew(0)]
    ensures Run(Init(50, 1), ls, s)
    ensures s.batch == 50 && s.log == [Version1(), Version2()] && s.created && s.delivered == 2
    ensures s.pending.Keys == {0, 1} && s.workers == [Worker([1], None)] && s.table == map[] && s.done == []
  {
    hide Run, Next, Version1, Version2, FirstAnnounced, NoWork, Init;
    var first := OneAnnounced();
    var m := ReadAndRestarted();
    s := SecondRead(m);
    var second := [ReadNew(0), Crash(0), Announce(Version2()), ReadNew(0)];
    FourSteps(FirstAnnounced(), ReadNew(0), Crash(0), Announce(Version2()), ReadNew(0), s);
    RunConcat(Init(50, 1), first, FirstAnnounced(), second, s);
    ls := first + second;
  }

  lemma FourSteps(s: State, a: Label, b: Label, c: Label, d: Label, t: State)
    requires Enabled(s, a) && Enabled(Next(s, a), b) && Enabled(Next(Next(s, a), b), c)
    requires Enabled(Next(Next(Next(s, a), b), c), d) && t == Next(Next(Next(Next(s, a), b), c), d)
    ensures Run(s, [a, b, c, d], t)
  {
    hide Enabled, Next;
    assert [d][1..] == [] && [c, d][1..] == [d] && [b, c, d][1..] == [c, d] && [a, b, c, d][1..] == [b, c, d];
    assert Run(Next(Next(Next(s, a), b), c), [d], t);
    assert Run(Next(Next(s, a), b), [c, d], t);
    assert Run(Next(s, a), [b, c, d], t);
  }

  // No failure of a handler or an acknowledgement is needed: a restart suffices, since the loop reads what
  // is new before its leftovers are idle.
  lemma RestartedOutOfOrder() returns (ls: seq<Label>, s: State)
    ensures Run(Init(50, 1), ls, s) && Drained(s)
    ensures forall i :: 0 <= i < |ls| ==> !ls[i].Fail? && !ls[i].AckFails?
    ensures s.log == [Version1(), Version2()] && s.done == [1, 0]
    ensures s.table == map["p" := Row(Content("n", "g", "1"), 2, true)]
  {
    hide Run, Drained;
    var first, m := ReadTwice();
    var second, n := RestHandled(m);
    var third;
    third, s := FailedOneReclaimed(n);
    RunConcat(m, second, n, third, s);
    RunConcat(Init(50, 1), first, m, second + third, s);
    ls := first + (second + third);
  }

  lemma FailedOneReclaimed(m: State) returns (ls: seq<Label>, s: State)
    requires FirstFailed(m)
    ensures ls == [Reclaim(0, [0]), Handle(0), Ack(0)] && Run(m, ls, s) && Drained(s)
    ensures s.log == [Version1(), Version2()] && s.done == [1, 0]
    ensures s.table == map["p" := Row(Content("n", "g", "1"), 2, true)]
  {
    var s8 := Next(m, Reclaim(0, [0]));
    assert s8.workers == [Worker([0], None)] && s8.pending.Keys == {0};
    ls, s := ReclaimedHandled(s8);
    ls := [Reclaim(0, [0])] + ls;
    assert ls[1..] == [Handle(0), Ack(0)];
  }

  lemma ReclaimedHandled(m: State) returns (ls: seq<Label>, s: State)
    requires m.log == [Version1(), Version2()] && m.delivered == 2
    requires m.workers == [Worker([0], None)] && m.pending.Keys == {0} && m.done == [1]
    requires m.table == map["p" := Row(Content("n", "g", "2"), 2, true)]
    ensures ls == [Handle(0), Ack(0)] && Run(m, ls, s) && Drained(s)
    ensures s.log == m.log && s.done == [1, 0]
    ensures s.table == map["p" := Row(Content("n", "g", "1"), 2, true)]
  {
    var s1 := Next(m, Handle(0));
    assert s1.workers[0] == Worker([], Some(0));
    s := Next(s1, Ack(0));
    assert s.pending.Keys == {};
    ls := [Handle(0), Ack(0)];
    assert Run(s1, ls[1..], s);
  }
}
