// How often an entry is handled. The group is documented to let exactly one replica handle each event.
// This is false: a reclaim can make two replicas handle it. What follows says exactly which reclaims do.
module HandlingOnce {
  import opened Wrappers
  import opened Events
  import opened Expectations
  import opened ConsumerGroup
  import opened GroupDrain

  predicate Unrepeated(done: seq<nat>) {
    forall i, j :: 0 <= i < j < |done| ==> done[i] != done[j]
  }

  // Position i of a batch will be handled if nothing fails: the entry can be handled, and no entry that
  // makes its replica abandon the batch comes before it.
  predicate InReach(log: seq<Entry>, batch: seq<nat>, i: int) {
    && 0 <= i < |batch| && batch[i] < |log| && Handleable(log[batch[i]])
    && forall j :: 0 <= j < i ==> batch[j] < |log| && !log[batch[j]].NotAnObject?
  }

  // Replica r is yet to handle entry id.
  ghost predicate Holds(s: State, r: int, id: nat) {
    0 <= r < |s.workers| && HeldIn(s.log, s.workers[r].inbox, id)
  }

  ghost predicate HeldIn(log: seq<Entry>, batch: seq<nat>, id: nat) {
    exists i :: InReach(log, batch, i) && batch[i] == id
  }

  // No entry has been handled twice, and none that a replica is yet to handle has been handled already or
  // is with another replica as well.
  ghost predicate Exclusive(s: State) {
    && Unrepeated(s.done)
    && (forall r, id :: Holds(s, r, id) ==> id !in s.done)
    && (forall r, q, id :: Holds(s, r, id) && Holds(s, q, id) ==> r == q)
  }

  // What replica r would handle of the claimed entries has not been handled, and is with no other replica.
  ghost predicate Clean(s: State, r: nat, ids: seq<nat>) {
    forall id :: HeldIn(s.log, ids, id) ==> id !in s.done && forall q :: q != r ==> !Holds(s, q, id)
  }

  predicate NoReclaims(ls: seq<Label>) {
    forall i :: 0 <= i < |ls| ==> !ls[i].Reclaim?
  }

  // Without further reclaims, nothing is handled twice, whatever else happens.
  ghost predicate NeverRepeats(s: State) {
    forall ls, t :: Run(s, ls, t) && NoReclaims(ls) ==> Unrepeated(t.done)
  }

  // ----- Every other step keeps hands apart -----

  // What is held after a step was held before it, or is new to the group.
  ghost predicate HoldsNoMore(s: State, t: State) {
    forall r, id :: Holds(t, r, id) ==> Holds(s, r, id)
  }

  lemma TailHeld(log: seq<Entry>, batch: seq<nat>, id: nat)
    requires batch != [] && batch[0] < |log| && !log[batch[0]].NotAnObject? && HeldIn(log, batch[1..], id)
    ensures HeldIn(log, batch, id)
  {
    var i :| InReach(log, batch[1..], i) && batch[1..][i] == id;
    forall j | 0 <= j < i + 1 ensures batch[j] < |log| && !log[batch[j]].NotAnObject? {
      if j > 0 { assert batch[j] == batch[1..][j - 1]; }
    }
    assert InReach(log, batch, i + 1);
  }

  // Taking the head off one inbox, or emptying it.
  lemma Dropped(s: State, r: nat, w: Worker)
    requires Exclusive(s) && Inv(s) && HasHead(s, r)
    requires w.inbox == [] || (w.inbox == s.workers[r].inbox[1..] && !Head(s, r).NotAnObject?)
    ensures Exclusive(SetWorker(s, r, w))
    ensures HoldsNoMore(s, SetWorker(s, r, w)) && !Holds(SetWorker(s, r, w), r, s.workers[r].inbox[0])
  {
    var t, batch := SetWorker(s, r, w), s.workers[r].inbox;
    assert WorkerInv(s, s.workers[r]);
    forall q, id: nat | Holds(t, q, id) ensures Holds(s, q, id) {
      if q == r { TailHeld(s.log, batch, id); }
    }
    assert forall i :: 0 <= i < |w.inbox| ==> w.inbox[i] == batch[i + 1] > batch[0];
  }

  lemma HandledExclusive(s: State, r: nat, w: Worker)
    requires Exclusive(s) && Inv(s) && HasHead(s, r) && Handleable(Head(s, r)) && w.inbox == s.workers[r].inbox[1..]
    ensures Exclusive(SetWorker(Completed(s, s.workers[r].inbox[0]), r, w))
  {
    Dropped(s, r, w);
    var t, id := SetWorker(s, r, w), s.workers[r].inbox[0];
    var u := SetWorker(Completed(s, id), r, w);
    assert InReach(s.log, s.workers[r].inbox, 0);
    assert Holds(s, r, id) && id !in s.done;
    forall q, k: nat | Holds(u, q, k) ensures Holds(t, q, k) {
    }
    assert forall q :: !Holds(t, q, id);
  }

  ghost predicate Fits(s: State) {
    forall r, i :: 0 <= r < |s.workers| && 0 <= i < |s.workers[r].inbox| ==> s.workers[r].inbox[i] < |s.log|
  }

  lemma InboxesFit(s: State)
    requires Inv(s)
    ensures Fits(s)
  {
    forall r | 0 <= r < |s.workers| ensures WorkerInv(s, s.workers[r]) {
    }
  }

  // A step that leaves the log's beginning, the inboxes and the history alone.
  lemma Kept(s: State, t: State)
    requires Exclusive(s) && t.done == s.done && s.log <= t.log && |t.workers| == |s.workers|
    requires Fits(s) && forall r :: 0 <= r < |s.workers| ==> t.workers[r].inbox in {s.workers[r].inbox, []}
    ensures Exclusive(t)
  {
    forall r, id: nat | Holds(t, r, id) ensures Holds(s, r, id) {
      var i :| InReach(t.log, t.workers[r].inbox, i) && t.workers[r].inbox[i] == id;
      assert InReach(s.log, s.workers[r].inbox, i);
    }
  }

  lemma SameHands(s: State, t: State)
    requires Exclusive(s) && t.done == s.done && t.log == s.log && t.workers == s.workers
    ensures Exclusive(t)
  {
    forall r, id: nat | Holds(t, r, id) ensures Holds(s, r, id) {
    }
  }

  lemma ReadExclusive(s: State, r: nat)
    requires Exclusive(s) && Inv(s) && Enabled(s, ReadNew(r))
    ensures Exclusive(Next(s, ReadNew(r)))
  {
    var t := Next(s, ReadNew(r));
    forall q, id: nat | Holds(t, q, id)
      ensures if q == r then id >= s.delivered else Holds(s, q, id) && id < s.delivered
    {
      if q != r { assert WorkerInv(s, s.workers[q]); }
    }
  }

  lemma HandleExclusive(s: State, r: nat)
    requires Exclusive(s) && Inv(s) && Enabled(s, Handle(r))
    ensures Exclusive(Next(s, Handle(r)))
  {
    var w := Next(s, Handle(r)).workers[r];
    HandledExclusive(s, r, w);
    SameHands(SetWorker(Completed(s, s.workers[r].inbox[0]), r, w), Next(s, Handle(r)));
  }

  lemma FailExclusive(s: State, r: nat, committed: bool)
    requires Exclusive(s) && Inv(s) && Enabled(s, Fail(r, committed))
    ensures Exclusive(Next(s, Fail(r, committed)))
  {
    var w := Next(s, Fail(r, committed)).workers[r];
    if committed { HandledExclusive(s, r, w); } else { Dropped(s, r, w); }
  }

  lemma DiscardExclusive(s: State, r: nat)
    requires Exclusive(s) && Inv(s) && Enabled(s, Discard(r))
    ensures Exclusive(Next(s, Discard(r)))
  {
    Dropped(s, r, Next(s, Discard(r)).workers[r]);
  }

  lemma OtherExclusive(s: State, l: Label)
    requires Exclusive(s) && Inv(s) && Enabled(s, l)
    requires l.Announce? || l.EnsureGroup? || l.Ack? || l.AckFails? || l.Crash?
    ensures Exclusive(Next(s, l))
  {
    InboxesFit(s);
    hide Inv, Exclusive;
    Kept(s, Next(s, l));
  }

  lemma StepExclusive(s: State, l: Label)
    requires Exclusive(s) && Inv(s) && Enabled(s, l) && !l.Reclaim?
    ensures Exclusive(Next(s, l))
  {
    hide Inv, Exclusive, Next, Enabled;
    match l
    case ReadNew(r) => ReadExclusive(s, r);
    case Handle(r) => HandleExclusive(s, r);
    case Fail(r, committed) => FailExclusive(s, r, committed);
    case Discard(r) => DiscardExclusive(s, r);
    case Announce(_) => OtherExclusive(s, l);
    case EnsureGroup => OtherExclusive(s, l);
    case Ack(_) => OtherExclusive(s, l);
    case AckFails(_, _) => OtherExclusive(s, l);
    case Crash(_) => OtherExclusive(s, l);
  }

  // After a reclaim hands are apart exactly when they were before and the reclaim is clean.
  lemma ReclaimExclusiveIff(s: State, r: nat, ids: seq<nat>)
    requires Inv(s) && Enabled(s, Reclaim(r, ids))
    ensures Exclusive(Next(s, Reclaim(r, ids))) <==> Exclusive(s) && Clean(s, r, ids)
  {
    var t := Next(s, Reclaim(r, ids));
    forall q, id: nat ensures Holds(t, q, id) <==> if q == r then HeldIn(s.log, ids, id) else Holds(s, q, id) {
    }
    assert t.done == s.done;
    if Exclusive(t) {
      forall id: nat | HeldIn(s.log, ids, id) ensures id !in s.done && forall q :: q != r ==> !Holds(s, q, id) {
        assert Holds(t, r, id);
      }
      forall q, id: nat | Holds(s, q, id) ensures Holds(t, q, id) {
      }
    }
  }

  lemma {:induction false} RunExclusive(s: State, ls: seq<Label>, t: State)
    requires Exclusive(s) && Inv(s) && Run(s, ls, t) && NoReclaims(ls)
    ensures Exclusive(t)
    decreases |ls|
  {
    if ls != [] {
      assert !ls[0].Reclaim?;
      StepExclusive(s, ls[0]);
      StepInv(s, ls[0]);
      RunExclusive(Next(s, ls[0]), ls[1..], t);
    }
  }

  // ----- Where hands are not apart, something can be handled twice -----

  // A step of replica r that goes on with its batch; it fails only where it cannot but fail.
  predicate Proceeds(s: State, l: Label, r: nat) {
    && l in {Discard(r), Handle(r), Fail(r, false), Ack(r)}
    && (l.Fail? ==> HasHead(s, r) && Poison(Head(s, r)))
  }

  ghost predicate Proceeding(s: State, ls: seq<Label>, t: State, r: nat)
    decreases |ls|
  {
    if ls == [] then s == t
    else Enabled(s, ls[0]) && Proceeds(s, ls[0], r) && Proceeding(Next(s, ls[0]), ls[1..], t, r)
  }

  // The next step of replica r, which is yet to handle entry id.
  function NextStep(s: State, r: nat): Label
    requires r < |s.workers| && (s.workers[r].acking.None? ==> HasHead(s, r))
  {
    if s.workers[r].acking.Some? then Ack(r)
    else if Head(s, r).Malformed() then Discard(r)
    else if Handleable(Head(s, r)) then Handle(r)
    else Fail(r, false)
  }

  // Other replicas, and what was handled before, are as they were.
  predicate OnlyBy(s: State, t: State, r: nat) {
    && t.log == s.log && s.done <= t.done && |t.workers| == |s.workers|
    && forall q :: 0 <= q < |s.workers| && q != r ==> t.workers[q] == s.workers[q]
  }

  function ToDo(w: Worker): nat {
    2 * |w.inbox| + if w.acking.Some? then 1 else 0
  }

  lemma TailStillHeld(log: seq<Entry>, batch: seq<nat>, id: nat)
    requires HeldIn(log, batch, id)
    ensures batch != [] && batch[0] < |log| && !log[batch[0]].NotAnObject?
    ensures (batch[0] == id && Handleable(log[batch[0]])) || HeldIn(log, batch[1..], id)
  {
    var i :| InReach(log, batch, i) && batch[i] == id;
    if i > 0 {
      assert InReach(log, batch[1..], i - 1);
    }
  }

  lemma NextStepEffect(s: State, r: nat)
    requires r < |s.workers| && (s.workers[r].acking.None? ==> HasHead(s, r) && !Head(s, r).NotAnObject?)
    ensures Enabled(s, NextStep(s, r)) && Proceeds(s, NextStep(s, r), r)
    ensures var w, m := s.workers[r], Next(s, NextStep(s, r));
      && OnlyBy(s, m, r) && ToDo(m.workers[r]) < ToDo(w)
      && m.workers[r].inbox == (if w.acking.Some? then w.inbox else w.inbox[1..])
      && (w.acking.None? && Handleable(Head(s, r)) ==> m.done == s.done + [w.inbox[0]])
  {
  }

  lemma Advances(s: State, r: nat, id: nat) returns (l: Label, m: State)
    requires Inv(s) && Holds(s, r, id)
    ensures Enabled(s, l) && Proceeds(s, l, r) && m == Next(s, l)
    ensures Inv(m) && OnlyBy(s, m, r) && ToDo(m.workers[r]) < ToDo(s.workers[r])
    ensures m.done == s.done + [id] || Holds(m, r, id)
  {
    hide Inv, Next, Enabled, Proceeds, ToDo;
    TailStillHeld(s.log, s.workers[r].inbox, id);
    NextStepEffect(s, r);
    l := NextStep(s, r);
    m := Next(s, l);
    StepInv(s, l);
  }

  lemma OnlyByMore(s: State, m: State, t: State, r: nat)
    requires OnlyBy(s, m, r) && OnlyBy(m, t, r)
    ensures OnlyBy(s, t, r)
    ensures forall id :: id in t.done[|m.done|..] || id in m.done[|s.done|..] ==> id in t.done[|s.done|..]
  {
    assert t.done[|s.done|..] == m.done[|s.done|..] + t.done[|m.done|..];
  }

  // Replica r goes on with its batch until it has handled entry id, which changes nothing for others.
  lemma {:induction false} WorksThrough(s: State, r: nat, id: nat) returns (ls: seq<Label>, t: State)
    requires Inv(s) && Holds(s, r, id)
    ensures Proceeding(s, ls, t, r) && Inv(t)
    ensures OnlyBy(s, t, r) && id in t.done[|s.done|..]
    decreases ToDo(s.workers[r])
  {
    hide Inv, Next, Enabled, Proceeds, ToDo;
    var l, m := Advances(s, r, id);
    assert [l][1..] == [] && Proceeding(m, [], m, r);
    if Holds(m, r, id) {
      ls, t := WorksThrough(m, r, id);
      OnlyByMore(s, m, t, r);
      assert ([l] + ls)[1..] == ls;
      ls := [l] + ls;
    } else {
      ls, t := [l], m;
    }
  }

  lemma {:induction false} ProceedingRuns(s: State, ls: seq<Label>, t: State, r: nat)
    requires Proceeding(s, ls, t, r)
    ensures Run(s, ls, t) && NoReclaims(ls)
    ensures NoPoison(s.log) ==> NoFaults(ls)
    decreases |ls|
  {
    if ls != [] {
      assert Next(s, ls[0]).log == s.log;
      ProceedingRuns(Next(s, ls[0]), ls[1..], t, r);
    }
  }

  lemma RepeatedBy(before: seq<nat>, after: seq<nat>, id: nat)
    requires before <= after && id in before && id in after[|before|..]
    ensures !Unrepeated(after)
  {
    var i :| 0 <= i < |before| && before[i] == id;
    var j :| 0 <= j < |after[|before|..]| && after[|before|..][j] == id;
    assert after[i] == after[|before| + j];
  }

  // A run without reclaims, and without faults where the log is free of poison, in which something is
  // handled twice.
  ghost predicate Repetition(s: State, ls: seq<Label>, t: State) {
    Run(s, ls, t) && NoReclaims(ls) && (NoPoison(s.log) ==> NoFaults(ls)) && !Unrepeated(t.done)
  }

  lemma HandledRepeats(s: State, r: nat, id: nat) returns (ls: seq<Label>, t: State)
    requires Inv(s) && Holds(s, r, id) && id in s.done
    ensures Repetition(s, ls, t)
  {
    hide Inv, Run, Holds;
    ls, t := WorksThrough(s, r, id);
    RepeatedBy(s.done, t.done, id);
    ProceedingRuns(s, ls, t, r);
  }

  lemma SharedRepeats(s: State, r: nat, q: nat, id: nat) returns (ls: seq<Label>, t: State)
    requires Inv(s) && Holds(s, r, id) && Holds(s, q, id) && r != q
    ensures Repetition(s, ls, t)
  {
    hide Inv, Run, Proceeding, Unrepeated, NoPoison;
    var first, m := WorksThrough(s, r, id);
    var second;
    second, t := WorksThrough(m, q, id);
    ProceedingRuns(s, first, m, r);
    ProceedingRuns(m, second, t, q);
    RunConcat(s, first, m, second, t);
    RepeatedBy(m.done, t.done, id);
    ls := first + second;
  }

  lemma Repeats(s: State) returns (ls: seq<Label>, t: State)
    requires Inv(s) && !Exclusive(s)
    ensures Repetition(s, ls, t)
  {
    hide Inv;
    if !Unrepeated(s.done) {
      ls, t := [], s;
    } else if r, id: nat :| Holds(s, r, id) && id in s.done {
      ls, t := HandledRepeats(s, r, id);
    } else {
      var r, q, id: nat :| Holds(s, r, id) && Holds(s, q, id) && r != q;
      ls, t := SharedRepeats(s, r, q, id);
    }
  }

  // In every reachable state: what is to come is handled at most once exactly when hands are apart.
  lemma OnceIff(s: State)
    requires Inv(s)
    ensures NeverRepeats(s) <==> Exclusive(s)
  {
    if Exclusive(s) {
      forall ls, t | Run(s, ls, t) && NoReclaims(ls) ensures Unrepeated(t.done) {
        RunExclusive(s, ls, t);
      }
    } else {
      var ls, t := Repeats(s);
    }
  }

  // After a reclaim nothing will be handled twice exactly when that was so before and the reclaim is clean.
  lemma ReclaimIff(s: State, r: nat, ids: seq<nat>)
    requires Inv(s) && Enabled(s, Reclaim(r, ids))
    ensures NeverRepeats(Next(s, Reclaim(r, ids))) <==> NeverRepeats(s) && Clean(s, r, ids)
  {
    OnceIff(s);
    StepInv(s, Reclaim(r, ids));
    OnceIff(Next(s, Reclaim(r, ids)));
    ReclaimExclusiveIff(s, r, ids);
  }

  // A reclaim that is not clean needs no fault to make something be handled twice.
  lemma UncleanRepeats(s: State, r: nat, ids: seq<nat>) returns (ls: seq<Label>, t: State)
    requires Inv(s) && Enabled(s, Reclaim(r, ids)) && !Clean(s, r, ids) && NoPoison(s.log)
    ensures Run(Next(s, Reclaim(r, ids)), ls, t) && NoReclaims(ls) && NoFaults(ls)
    ensures !Unrepeated(t.done)
  {
    var m := Next(s, Reclaim(r, ids));
    StepInv(s, Reclaim(r, ids));
    ReclaimExclusiveIff(s, r, ids);
    ls, t := Repeats(m);
  }

  // ----- Whole runs -----

  ghost predicate CleanRun(s: State, ls: seq<Label>, t: State)
    requires Run(s, ls, t)
    decreases |ls|
  {
    ls != [] ==> (ls[0].Reclaim? ==> Clean(s, ls[0].r, ls[0].ids)) && CleanRun(Next(s, ls[0]), ls[1..], t)
  }

  // At no point of the run has anything been, or need anything be, handled twice.
  ghost predicate OnceThroughout(s: State, ls: seq<Label>, t: State)
    requires Run(s, ls, t)
    decreases |ls|
  {
    NeverRepeats(s) && (ls != [] ==> OnceThroughout(Next(s, ls[0]), ls[1..], t))
  }

  lemma {:induction false} OnceThroughoutIff(s: State, ls: seq<Label>, t: State)
    requires Inv(s) && NeverRepeats(s) && Run(s, ls, t)
    ensures OnceThroughout(s, ls, t) <==> CleanRun(s, ls, t)
    decreases |ls|
  {
    if ls != [] {
      var m := Next(s, ls[0]);
      OnceIff(s);
      StepInv(s, ls[0]);
      OnceIff(m);
      if ls[0].Reclaim? { ReclaimIff(s, ls[0].r, ls[0].ids); } else { StepExclusive(s, ls[0]); }
      if NeverRepeats(m) {
        OnceThroughoutIff(m, ls[1..], t);
      } else {
        assert !OnceThroughout(m, ls[1..], t);
      }
    }
  }

  // In every run from the start: every entry is, and keeps being, handled at most once exactly when every
  // reclaim is clean, whatever fails or crashes.
  lemma HandledOnceIff(batch: nat, replicas: nat, ls: seq<Label>, s: State)
    requires batch > 0 && Run(Init(batch, replicas), ls, s)
    ensures OnceThroughout(Init(batch, replicas), ls, s) <==> CleanRun(Init(batch, replicas), ls, s)
    ensures CleanRun(Init(batch, replicas), ls, s) ==> Unrepeated(s.done)
  {
    var s0 := Init(batch, replicas);
    InitInv(batch, replicas);
    OnceIff(s0);
    OnceThroughoutIff(s0, ls, s);
    if OnceThroughout(s0, ls, s) { OnceAtEnd(s0, ls, s); }
  }

  lemma {:induction false} OnceAtEnd(s: State, ls: seq<Label>, t: State)
    requires Run(s, ls, t) && OnceThroughout(s, ls, t)
    ensures Unrepeated(t.done)
    decreases |ls|
  {
    if ls == [] {
      assert NoReclaims([]);
    } else {
      OnceAtEnd(Next(s, ls[0]), ls[1..], t);
    }
  }

  // In particular without any reclaim.
  lemma OnceWithoutReclaim(batch: nat, replicas: nat, ls: seq<Label>, s: State)
    requires batch > 0 && Run(Init(batch, replicas), ls, s) && NoReclaims(ls)
    ensures Unrepeated(s.done)
  {
    InitInv(batch, replicas);
    RunExclusive(Init(batch, replicas), ls, s);
  }

  // No failure is needed for a repetition: a replica that is merely slow is overtaken by the one that
  // reclaims its entry, and both handle it.
  lemma HandledTwice(e: Entry) returns (ls: seq<Label>, s: State)
    requires Handleable(e)
    ensures Run(Init(50, 2), ls, s) && forall i :: 0 <= i < |ls| ==> !Faulty(ls[i])
    ensures s.log == [e] && s.done == [0, 0]
  {
    hide Run;
    var before, s2 := OneAnnounced(e);
    var middle, s4 := Overtaken(s2, e);
    var after;
    after, s := BothHandle(s4, e);
    RunConcat(s2, middle, s4, after, s);
    RunConcat(Init(50, 2), before, s2, middle + after, s);
    ls := before + (middle + after);
  }

  lemma OneAnnounced(e: Entry) returns (ls: seq<Label>, t: State)
    ensures ls == [Announce(e), EnsureGroup] && Run(Init(50, 2), ls, t)
    ensures t == Init(50, 2).(log := [e], created := true)
  {
    var m := Next(Init(50, 2), Announce(e));
    t := Next(m, EnsureGroup);
    ls := [Announce(e), EnsureGroup];
    assert Run(m, ls[1..], t);
  }

  lemma Overtaken(s: State, e: Entry) returns (ls: seq<Label>, t: State)
    requires s == Init(50, 2).(log := [e], created := true)
    ensures ls == [ReadNew(0), Reclaim(1, [0])] && Run(s, ls, t)
    ensures t.log == [e] && t.workers == [Worker([0], None), Worker([0], None)] && t.done == []
  {
    var m := Next(s, ReadNew(0));
    assert NewIds(s) == [0] && m.workers == [Worker([0], None), NoWork()] && 0 in m.pending;
    t := Next(m, Reclaim(1, [0]));
    ls := [ReadNew(0), Reclaim(1, [0])];
    assert Run(m, ls[1..], t);
  }

  lemma BothHandle(s: State, e: Entry) returns (ls: seq<Label>, t: State)
    requires Handleable(e) && s.log == [e] && s.workers == [Worker([0], None), Worker([0], None)] && s.done == []
    ensures ls == [Handle(0), Handle(1)] && Run(s, ls, t) && t.log == [e] && t.done == [0, 0]
  {
    var m := Next(s, Handle(0));
    assert m.workers[1] == Worker([0], None) && m.done == [0];
    t := Next(m, Handle(1));
    ls := [Handle(0), Handle(1)];
    assert Run(m, ls[1..], t);
  }
}
