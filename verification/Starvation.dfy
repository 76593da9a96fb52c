// What an entry that is not an object does to its neighbours. A fetch gives all its entries the same
// delivery time, so they also become idle together; the claim lists them in order, and a replica abandons
// the batch at the entry that is not an object.
module Starvation {
  import opened Wrappers
  import opened Events
  import opened Expectations
  import opened ConsumerGroup
  import opened Redelivery
  import opened HandlingOnce

  // After how many seconds an entry counts as idle.
  const IDLE := 30.0

  // The group with the server's clock and the time of each entry's last delivery.
  datatype Timed = Timed(group: State, now: real, stamps: map<nat, real>)

  datatype Move = Wait(seconds: real) | Step(l: Label)

  predicate IsIdle(s: Timed, id: nat) {
    id in s.stamps && s.now - s.stamps[id] >= IDLE
  }

  function Idles(s: Timed): nat -> bool {
    (id: nat) => IsIdle(s, id)
  }

  // A reclaim takes what the server's claim takes.
  ghost predicate Claims(s: Timed, ids: seq<nat>) {
    exists end: nat :: FirstIdle(s.group, Idles(s), ids, end)
  }

  ghost predicate Possible(s: Timed, m: Move) {
    match m
    case Wait(seconds) => seconds >= 0.0
    case Step(l) => Enabled(s.group, l) && (l.Reclaim? ==> Claims(s, l.ids))
  }

  function Stamped(stamps: map<nat, real>, ids: seq<nat>, now: real): map<nat, real> {
    map id | id in stamps.Keys + (set i | i in ids) :: if id in ids then now else stamps[id]
  }

  // What a step fetches.
  function Fetches(s: State, l: Label): seq<nat>
    requires Enabled(s, l)
  {
    if l.ReadNew? then NewIds(s) else if l.Reclaim? then l.ids else []
  }

  ghost function After(s: Timed, m: Move): Timed
    requires Possible(s, m)
  {
    match m
    case Wait(seconds) => s.(now := s.now + seconds)
    case Step(l) => Timed(Next(s.group, l), s.now, Stamped(s.stamps, Fetches(s.group, l), s.now))
  }

  ghost predicate Runs(s: Timed, ms: seq<Move>, t: Timed)
    decreases |ms|
  {
    if ms == [] then s == t else Possible(s, ms[0]) && Runs(After(s, ms[0]), ms[1..], t)
  }

  // Every pending entry has a delivery time, which is past.
  ghost predicate Clocked(s: Timed) {
    && Inv(s.group)
    && (forall id :: id in s.group.pending ==> id in s.stamps)
    && (forall id :: id in s.stamps ==> s.stamps[id] <= s.now)
  }

  lemma ClockedStays(s: Timed, m: Move)
    requires Clocked(s) && Possible(s, m)
    ensures Clocked(After(s, m))
  {
    if m.Step? {
      StepInv(s.group, m.l);
      PendingAfter(s.group, m.l);
      hide Inv, Enabled, Next;
    }
  }

  // In every run from the start.
  lemma {:induction false} RunsClocked(s: Timed, ms: seq<Move>, t: Timed)
    requires Clocked(s) && Runs(s, ms, t)
    ensures Clocked(t)
    decreases |ms|
  {
    hide Clocked, Possible, After;
    if ms != [] {
      ClockedStays(s, ms[0]);
      RunsClocked(After(s, ms[0]), ms[1..], t);
    }
  }

  lemma StartClocked(batch: nat, replicas: nat, now: real)
    requires batch > 0
    ensures Clocked(Timed(Init(batch, replicas), now, map[]))
  {
    InitInv(batch, replicas);
  }

  // Only a fetch adds to the pending list, and only what it fetches.
  lemma PendingAfter(s: State, l: Label)
    requires Enabled(s, l)
    ensures forall id :: id in Next(s, l).pending ==> id in s.pending || id in Fetches(s, l)
    ensures l.ReadNew? || l.Reclaim? ==>
      forall id :: id in Next(s, l).pending <==> id in s.pending || id in Fetches(s, l)
  {
  }

  // Whenever y is idle from now on, so is x.
  predicate Linked(s: Timed, x: nat, y: nat) {
    && x in s.stamps && y in s.stamps
    && (s.stamps[x] == s.stamps[y] || (s.now - s.stamps[x] >= 30.0 && s.now - s.stamps[y] >= 30.0))
  }

  // Entry y comes after x, which is not an object, and shares its delivery times. A batch has room for
  // everything that is pending up to y.
  ghost predicate Blocked(s: Timed, x: nat, y: nat) {
    && x < y < s.group.delivered <= |s.group.log| && s.group.log[x].NotAnObject?
    && (y in s.group.pending ==> Linked(s, x, y) && PendingBelow(s.group.pending, y + 1) <= s.group.batch)
    && forall r :: !Holds(s.group, r, y)
  }

  // ----- A blocked entry is never handled -----

  lemma StaysPending(s: State, x: nat)
    requires Inv(s) && x < s.delivered && s.log[x].NotAnObject?
    ensures x in s.pending
  {
    assert x in s.acked ==> x in s.returned && x in s.done;
  }

  lemma {:induction false} CountsWithin(pending: map<nat, nat>, ids: seq<nat>, end: nat)
    requires StrictlyIncreasing(ids) && forall i :: 0 <= i < |ids| ==> ids[i] in pending && ids[i] < end
    ensures |ids| <= PendingBelow(pending, end)
    decreases end
  {
    if ids != [] {
      var last := |ids| - 1;
      if ids[last] == end - 1 {
        CountsWithin(pending, ids[..last], end - 1);
      } else {
        CountsWithin(pending, ids, end - 1);
      }
    }
  }

  // A claim never ends before an entry up to which there is room for all that is pending.
  lemma ClaimReaches(s: Timed, ids: seq<nat>, end: nat, y: nat)
    requires Inv(s.group) && FirstIdle(s.group, Idles(s), ids, end) && StrictlyIncreasing(ids)
    requires y in s.group.pending && PendingBelow(s.group.pending, y + 1) <= s.group.batch
    ensures y < end
  {
    if end <= y {
      assert forall i :: 0 <= i < |ids| ==> ids[i] in ids;
      CountsWithin(s.group.pending, ids, end);
      MorePendingBelow(s.group.pending, end, y);
      assert false;
    }
  }

  // Of x and a linked y the claim takes both or neither.
  lemma TakenTogether(s: Timed, ids: seq<nat>, x: nat, y: nat)
    requires Clocked(s) && Claims(s, ids) && StrictlyIncreasing(ids) && Blocked(s, x, y) && y in s.group.pending
    ensures x in ids <==> y in ids
  {
    StaysPending(s.group, x);
    var end: nat :| FirstIdle(s.group, Idles(s), ids, end);
    ClaimReaches(s, ids, end, y);
  }

  lemma NotBehind(log: seq<Entry>, ids: seq<nat>, x: nat, y: nat)
    requires StrictlyIncreasing(ids) && x < y && x < |log| && log[x].NotAnObject? && (y in ids ==> x in ids)
    ensures !HeldIn(log, ids, y)
  {
    forall i | InReach(log, ids, i) ensures ids[i] != y {
      assert forall j :: 0 <= j < |ids| && ids[j] == x ==> i <= j;
    }
  }

  lemma HeldInLonger(log: seq<Entry>, more: seq<Entry>, batch: seq<nat>, id: nat)
    requires log <= more && (forall i :: 0 <= i < |batch| ==> batch[i] < |log|) && HeldIn(more, batch, id)
    ensures HeldIn(log, batch, id)
  {
    var i :| InReach(more, batch, i) && batch[i] == id;
    assert InReach(log, batch, i);
  }

  // What a step that fetches nothing makes of an inbox.
  lemma InboxAfter(s: State, l: Label, r: nat)
    requires Enabled(s, l) && !l.ReadNew? && !l.Reclaim? && r < |s.workers|
    ensures s.log <= Next(s, l).log && |Next(s, l).workers| == |s.workers|
    ensures var before, after := s.workers[r].inbox, Next(s, l).workers[r].inbox;
      || after == before || after == []
      || (HasHead(s, r) && !Head(s, r).NotAnObject? && after == before[1..])
  {
  }

  // A step that fetches nothing gives no replica anything to handle.
  lemma HeldBefore(s: State, l: Label, r: nat, id: nat)
    requires Inv(s) && Enabled(s, l) && !l.ReadNew? && !l.Reclaim? && Holds(Next(s, l), r, id)
    ensures Holds(s, r, id)
  {
    assert r < |s.workers| by {
      if |s.workers| > 0 { InboxAfter(s, l, 0); }
    }
    InboxAfter(s, l, r);
    assert WorkerInv(s, s.workers[r]);
    var after := Next(s, l).workers[r].inbox;
    hide Inv, Next, Enabled;
    HeldInLonger(s.log, Next(s, l).log, after, id);
    if after != s.workers[r].inbox { TailHeld(s.log, s.workers[r].inbox, id); }
  }

  lemma {:induction false} FewerPending(pending: map<nat, nat>, before: map<nat, nat>, n: nat)
    requires forall id: nat :: id in pending && id < n ==> id in before
    ensures PendingBelow(pending, n) <= PendingBelow(before, n)
  {
    if n > 0 { FewerPending(pending, before, n - 1); }
  }

  // What a step adds to the history is something a replica was about to handle.
  lemma OnlyHeldIsHandled(s: State, l: Label)
    requires Enabled(s, l)
    ensures Next(s, l).done == s.done
            || exists r, id :: Holds(s, r, id) && Next(s, l).done == s.done + [id]
  {
    if l.Handle? || (l.Fail? && l.committed) {
      assert InReach(s.log, s.workers[l.r].inbox, 0);
      assert Holds(s, l.r, s.workers[l.r].inbox[0]);
    }
  }

  lemma WaitBlocked(s: Timed, seconds: real, x: nat, y: nat)
    requires Blocked(s, x, y) && seconds >= 0.0
    ensures Blocked(s.(now := s.now + seconds), x, y)
  {
  }

  lemma NobodyHoldsStill(s: State, l: Label, y: nat)
    requires Inv(s) && Enabled(s, l) && !l.ReadNew? && !l.Reclaim? && forall r :: !Holds(s, r, y)
    ensures forall r :: !Holds(Next(s, l), r, y)
  {
    forall r ensures !Holds(Next(s, l), r, y) {
      if Holds(Next(s, l), r, y) { HeldBefore(s, l, r, y); }
    }
  }

  lemma RoomStays(s: State, l: Label, y: nat)
    requires Enabled(s, l) && !l.ReadNew? && !l.Reclaim?
    ensures y in Next(s, l).pending ==> y in s.pending
    ensures PendingBelow(Next(s, l).pending, y + 1) <= PendingBelow(s.pending, y + 1)
  {
    PendingAfter(s, l);
    hide Next, Enabled;
    FewerPending(Next(s, l).pending, s.pending, y + 1);
  }

  lemma QuietBlocked(s: Timed, l: Label, x: nat, y: nat)
    requires Clocked(s) && Blocked(s, x, y) && Possible(s, Step(l)) && !l.ReadNew? && !l.Reclaim?
    ensures Blocked(After(s, Step(l)), x, y)
  {
    NobodyHoldsStill(s.group, l, y);
    RoomStays(s.group, l, y);
    DeliveredAfter(s.group, l);
    assert Stamped(s.stamps, [], s.now) == s.stamps;
    hide Clocked, Inv, Next, Enabled, Claims, Holds, Stamped, PendingBelow;
  }

  lemma DeliveredAfter(s: State, l: Label)
    requires Enabled(s, l)
    ensures var t := Next(s, l);
      && s.log <= t.log && t.batch == s.batch && s.delivered <= t.delivered
      && (s.delivered <= |s.log| ==> t.delivered <= |t.log|)
      && |t.workers| == |s.workers| && t.created == (s.created || l.EnsureGroup?)
  {
  }

  lemma InboxFetched(s: State, l: Label, r: nat)
    requires Enabled(s, l) && (l.ReadNew? || l.Reclaim?) && r < |s.workers|
    ensures Next(s, l).log == s.log && |Next(s, l).workers| == |s.workers| && Next(s, l).done == s.done
    ensures Next(s, l).workers[r].inbox == if r == l.r then Fetches(s, l) else s.workers[r].inbox
    ensures StrictlyIncreasing(Fetches(s, l))
  {
  }

  // What a fetch takes: both or neither of x and y.
  lemma FetchedTogether(s: Timed, l: Label, x: nat, y: nat)
    requires Clocked(s) && Blocked(s, x, y) && Possible(s, Step(l)) && (l.ReadNew? || l.Reclaim?)
    ensures StrictlyIncreasing(Fetches(s.group, l))
    ensures y in Fetches(s.group, l) ==> y in s.group.pending && x in Fetches(s.group, l)
    ensures y in s.group.pending ==> (x in Fetches(s.group, l) <==> y in Fetches(s.group, l))
    ensures forall id :: id in Fetches(s.group, l) && id <= y ==> id in s.group.pending
  {
    InboxFetched(s.group, l, l.r);
    if l.Reclaim? && y in s.group.pending { TakenTogether(s, l.ids, x, y); }
  }

  // No replica is about to handle y after a fetch that puts x before it.
  lemma NobodyHolds(s: State, l: Label, x: nat, y: nat)
    requires Enabled(s, l) && (l.ReadNew? || l.Reclaim?)
    requires x < y && x < |s.log| && s.log[x].NotAnObject?
    requires y in Fetches(s, l) ==> x in Fetches(s, l)
    requires forall r :: !Holds(s, r, y)
    ensures forall r :: !Holds(Next(s, l), r, y)
  {
    forall r ensures !Holds(Next(s, l), r, y) {
      if 0 <= r < |s.workers| {
        InboxFetched(s, l, r);
        NotBehind(s.log, Fetches(s, l), x, y);
        assert !Holds(s, r, y);
      } else {
        InboxFetched(s, l, l.r);
      }
    }
  }

  lemma StampedTogether(s: Timed, ids: seq<nat>, group: State, x: nat, y: nat)
    requires Linked(s, x, y) && (x in ids <==> y in ids)
    ensures Linked(Timed(group, s.now, Stamped(s.stamps, ids, s.now)), x, y)
  {
  }

  lemma RoomAfterFetch(s: State, l: Label, y: nat)
    requires Enabled(s, l) && (l.ReadNew? || l.Reclaim?)
    requires forall id :: id in Fetches(s, l) && id <= y ==> id in s.pending
    ensures y in Next(s, l).pending ==> y in s.pending
    ensures PendingBelow(Next(s, l).pending, y + 1) <= PendingBelow(s.pending, y + 1)
  {
    PendingAfter(s, l);
    hide Next, Enabled, Fetches;
    FewerPending(Next(s, l).pending, s.pending, y + 1);
  }

  lemma FetchBlocked(s: Timed, l: Label, x: nat, y: nat)
    requires Clocked(s) && Blocked(s, x, y) && Possible(s, Step(l)) && (l.ReadNew? || l.Reclaim?)
    ensures Blocked(After(s, Step(l)), x, y)
  {
    FetchedTogether(s, l, x, y);
    NobodyHolds(s.group, l, x, y);
    RoomAfterFetch(s.group, l, y);
    DeliveredAfter(s.group, l);
    if y in s.group.pending { StampedTogether(s, Fetches(s.group, l), Next(s.group, l), x, y); }
    hide Clocked, Inv, Next, Enabled, Claims, Fetches, Holds, Stamped, Linked, PendingBelow;
  }

  lemma BlockedStays(s: Timed, m: Move, x: nat, y: nat)
    requires Clocked(s) && Blocked(s, x, y) && Possible(s, m)
    ensures Clocked(After(s, m)) && Blocked(After(s, m), x, y)
    ensures After(s, m).group.done == s.group.done
            || exists id: nat :: id != y && After(s, m).group.done == s.group.done + [id]
  {
    ClockedStays(s, m);
    match m
    case Wait(seconds) => WaitBlocked(s, seconds, x, y);
    case Step(l) =>
      OnlyHeldIsHandled(s.group, l);
      if l.ReadNew? || l.Reclaim? { FetchBlocked(s, l, x, y); } else { QuietBlocked(s, l, x, y); }
  }

  // Between s and t, entry id was handled.
  predicate HandledSince(s: State, t: State, id: nat) {
    s.done <= t.done && id in t.done[|s.done|..]
  }

  lemma NotYet(a: seq<nat>, b: seq<nat>, c: seq<nat>, y: nat)
    requires b <= c && y !in c[|b|..]
    requires b == a || exists id: nat :: id != y && b == a + [id]
    ensures a <= c && y !in c[|a|..]
  {
    assert c[|a|..] == b[|a|..] + c[|b|..];
  }

  // Whatever any replicas do, publish, fail or crash, and however long one waits: it is not handled.
  lemma {:induction false} NeverHandled(s: Timed, ms: seq<Move>, t: Timed, x: nat, y: nat)
    requires Clocked(s) && Blocked(s, x, y) && Runs(s, ms, t)
    ensures Clocked(t) && Blocked(t, x, y)
    ensures s.group.done <= t.group.done && !HandledSince(s.group, t.group, y)
    decreases |ms|
  {
    hide Clocked, Blocked, Possible, After;
    if ms != [] {
      BlockedStays(s, ms[0], x, y);
      var m := After(s, ms[0]);
      NeverHandled(m, ms[1..], t, x, y);
      NotYet(s.group.done, m.group.done, t.group.done, y);
    }
  }

  lemma {:induction false} NonePendingBefore(pending: map<nat, nat>, first: nat, n: nat)
    requires forall id :: id in pending ==> first <= id
    ensures PendingBelow(pending, n) <= if n <= first then 0 else n - first
  {
    if n > 0 { NonePendingBefore(pending, first, n - 1); }
  }

  lemma NewToAll(s: State, id: nat)
    requires Inv(s) && s.delivered <= id
    ensures forall r :: !Holds(s, r, id)
  {
    forall r ensures !Holds(s, r, id) {
      if 0 <= r < |s.workers| { assert WorkerInv(s, s.workers[r]); }
    }
  }

  lemma RoomAfterRead(s: State, r: nat, y: nat)
    requires Inv(s) && Enabled(s, ReadNew(r)) && s.pending == map[] && y in NewIds(s)
    ensures PendingBelow(Next(s, ReadNew(r)).pending, y + 1) <= s.batch
  {
    PendingAfter(s, ReadNew(r));
    NonePendingBefore(Next(s, ReadNew(r)).pending, s.delivered, y + 1);
  }

  lemma ReadBlocks(s: Timed, r: nat, x: nat, y: nat)
    requires Clocked(s) && Possible(s, Step(ReadNew(r))) && s.group.pending == map[]
    requires x < y && x in NewIds(s.group) && y in NewIds(s.group) && s.group.log[x].NotAnObject?
    ensures Blocked(After(s, Step(ReadNew(r))), x, y)
  {
    var ids := NewIds(s.group);
    assert y < Next(s.group, ReadNew(r)).delivered;
    NewToAll(s.group, y);
    NobodyHolds(s.group, ReadNew(r), x, y);
    RoomAfterRead(s.group, r, y);
    DeliveredAfter(s.group, ReadNew(r));
    assert Stamped(s.stamps, ids, s.now)[x] == Stamped(s.stamps, ids, s.now)[y] == s.now;
    hide Inv, Next, Enabled, NewIds, Holds, Stamped, PendingBelow;
  }

  // In particular an entry that is read as new together with, and after, an entry that is not an object,
  // while nothing else is pending.
  lemma MatesStarve(s: Timed, r: nat, ms: seq<Move>, t: Timed, x: nat, y: nat)
    requires Clocked(s) && Possible(s, Step(ReadNew(r))) && s.group.pending == map[]
    requires x < y && x in NewIds(s.group) && y in NewIds(s.group) && s.group.log[x].NotAnObject?
    requires Runs(After(s, Step(ReadNew(r))), ms, t)
    ensures y !in t.group.done
  {
    var m := After(s, Step(ReadNew(r)));
    ClockedStays(s, Step(ReadNew(r)));
    ReadBlocks(s, r, x, y);
    NeverHandled(m, ms, t, x, y);
    assert Within(s.group.done, s.group.delivered);
  }

  // ----- An entry that is not blocked can be handled -----

  ghost predicate CanBeHandled(s: Timed, y: nat) {
    exists ms, t :: Runs(s, ms, t) && HandledSince(s.group, t.group, y)
  }

  lemma {:induction false} RunsConcat(s: Timed, ms: seq<Move>, m: Timed, ns: seq<Move>, t: Timed)
    requires Runs(s, ms, m) && Runs(m, ns, t)
    ensures Runs(s, ms + ns, t)
    decreases |ms|
  {
    if ms == [] {
      assert [] + ns == ns;
    } else {
      RunsConcat(After(s, ms[0]), ms[1..], m, ns, t);
      assert (ms + ns)[1..] == ms[1..] + ns;
    }
  }

  // A step that handles nothing takes no chance away.
  lemma StillPossible(s: Timed, m: Move, y: nat)
    requires Possible(s, m) && After(s, m).group.done == s.group.done && CanBeHandled(After(s, m), y)
    ensures CanBeHandled(s, y)
  {
    var t := After(s, m);
    var ms, u :| Runs(t, ms, u) && HandledSince(t.group, u.group, y);
    assert ([m] + ms)[1..] == ms;
    assert Runs(s, [m] + ms, u);
  }

  function Steps(ls: seq<Label>): (ms: seq<Move>)
    ensures |ms| == |ls| && forall i :: 0 <= i < |ls| ==> ms[i] == Step(ls[i])
  {
    seq(|ls|, i requires 0 <= i < |ls| => Step(ls[i]))
  }

  lemma {:induction false} ProceedingInTime(s: Timed, ls: seq<Label>, g: State, r: nat)
    requires Proceeding(s.group, ls, g, r)
    ensures Runs(s, Steps(ls), s.(group := g))
    decreases |ls|
  {
    if ls != [] {
      var m := After(s, Step(ls[0]));
      assert Stamped(s.stamps, [], s.now) == s.stamps;
      ProceedingInTime(m, ls[1..], g, r);
      assert Steps(ls)[1..] == Steps(ls[1..]);
    }
  }

  // A replica that is about to handle the entry can do so without delay.
  lemma HolderHandles(s: Timed, r: nat, y: nat)
    requires Inv(s.group) && Holds(s.group, r, y)
    ensures CanBeHandled(s, y)
  {
    var ls, g := WorksThrough(s.group, r, y);
    ProceedingInTime(s, ls, g, r);
    assert HandledSince(s.group, s.(group := g).group, y);
  }

  function IdleBelow(s: Timed, k: nat): seq<nat> {
    if k == 0 then []
    else IdleBelow(s, k - 1) + (if k - 1 in s.group.pending && IsIdle(s, k - 1) then [k - 1] else [])
  }

  lemma {:induction false} IdleBelowIs(s: Timed, k: nat)
    ensures StrictlyIncreasing(IdleBelow(s, k)) && |IdleBelow(s, k)| <= PendingBelow(s.group.pending, k)
    ensures forall id :: id in IdleBelow(s, k) <==> id in s.group.pending && IsIdle(s, id) && id < k
  {
    hide IsIdle;
    if k > 0 {
      IdleBelowIs(s, k - 1);
      var before := IdleBelow(s, k - 1);
      assert forall i :: 0 <= i < |before| ==> before[i] in before;
    }
  }

  // The server's scan, from entry k on.
  lemma {:induction false} ScanFrom(s: Timed, k: nat) returns (end: nat)
    requires k <= s.group.delivered && |IdleBelow(s, k)| <= s.group.batch
    requires PendingBelow(s.group.pending, k) <= 10 * s.group.batch
    ensures FirstIdle(s.group, Idles(s), IdleBelow(s, end), end) && |IdleBelow(s, end)| <= s.group.batch
    decreases s.group.delivered - k
  {
    IdleBelowIs(s, k);
    if k == s.group.delivered || |IdleBelow(s, k)| == s.group.batch
       || PendingBelow(s.group.pending, k) == 10 * s.group.batch {
      end := k;
    } else {
      end := ScanFrom(s, k + 1);
    }
  }

  ghost predicate Ready(s: Timed, r: nat) {
    Clocked(s) && s.group.created && r < |s.group.workers| && s.group.workers[r].Idle()
  }

  // The entries claimed now have the delivery time of now, and nothing else has changed.
  ghost predicate JustClaimed(s: Timed, ids: seq<nat>, t: Timed) {
    && t.now == s.now && t.group.log == s.group.log && t.group.batch == s.group.batch && t.group.done == s.group.done
    && t.group.created == s.group.created && |t.group.workers| == |s.group.workers|
    && t.group.pending.Keys == s.group.pending.Keys
    && t.stamps.Keys == s.stamps.Keys
    && forall id :: id in s.stamps ==> t.stamps[id] == if id in ids then s.now else s.stamps[id]
  }

  lemma ClaimEffect(s: Timed, r: nat, ids: seq<nat>)
    requires Clocked(s) && Possible(s, Step(Reclaim(r, ids)))
    ensures var t := After(s, Step(Reclaim(r, ids)));
      Clocked(t) && JustClaimed(s, ids, t) && r < |t.group.workers| && t.group.workers[r] == Worker(ids, None)
  {
    ClockedStays(s, Step(Reclaim(r, ids)));
  }

  // What a claim made now would take.
  lemma ClaimableNow(s: Timed, r: nat) returns (ids: seq<nat>, end: nat)
    requires Ready(s, r)
    ensures FirstIdle(s.group, Idles(s), ids, end) && StrictlyIncreasing(ids)
    ensures ids != [] ==> Possible(s, Step(Reclaim(r, ids)))
  {
    end := ScanFrom(s, 0);
    ids := IdleBelow(s, end);
    IdleBelowIs(s, end);
    assert forall i :: 0 <= i < |ids| ==> ids[i] in ids;
    assert Claims(s, ids);
  }

  lemma CrashEffect(s: Timed, r: nat)
    requires Clocked(s) && s.group.created && r < |s.group.workers|
    ensures Possible(s, Step(Crash(r))) && Ready(After(s, Step(Crash(r))), r)
    ensures JustClaimed(s, [], After(s, Step(Crash(r))))
  {
    ClockedStays(s, Step(Crash(r)));
  }

  // There is room for everything that is pending up to y.
  predicate Roomy(s: Timed, y: nat) {
    y in s.group.pending && PendingBelow(s.group.pending, y + 1) <= s.group.batch
  }

  // Pending entries before y that make a replica abandon its batch.
  ghost predicate Obstacle(s: Timed, x: nat, y: nat) {
    x < y && x in s.group.pending && x < |s.group.log| && s.group.log[x].NotAnObject?
  }

  lemma HeldOnceClaimed(s: Timed, ids: seq<nat>, end: nat, y: nat)
    requires Clocked(s) && FirstIdle(s.group, Idles(s), ids, end) && StrictlyIncreasing(ids)
    requires Roomy(s, y) && IsIdle(s, y) && y < |s.group.log| && Handleable(s.group.log[y])
    requires forall x: nat :: Obstacle(s, x, y) ==> !IsIdle(s, x)
    ensures HeldIn(s.group.log, ids, y)
  {
    ClaimReaches(s, ids, end, y);
    var i :| 0 <= i < |ids| && ids[i] == y;
    forall j | 0 <= j < i ensures ids[j] < |s.group.log| && !s.group.log[ids[j]].NotAnObject? {
      assert ids[j] in ids && ids[j] < y;
      assert Idles(s)(ids[j]) && !Obstacle(s, ids[j], y);
    }
    assert InReach(s.group.log, ids, i);
  }

  // An idle entry with no idle obstacle can be handled: a free replica claims it.
  lemma ClaimNow(s: Timed, r: nat, y: nat)
    requires Ready(s, r) && Roomy(s, y) && IsIdle(s, y) && y < |s.group.log| && Handleable(s.group.log[y])
    requires forall x: nat :: Obstacle(s, x, y) ==> !IsIdle(s, x)
    ensures CanBeHandled(s, y)
  {
    var ids, end := ClaimableNow(s, r);
    HeldOnceClaimed(s, ids, end, y);
    ClaimEffect(s, r, ids);
    var t := After(s, Step(Reclaim(r, ids)));
    assert Holds(t.group, r, y);
    HolderHandles(t, r, y);
    StillPossible(s, Step(Reclaim(r, ids)), y);
  }

  // A time at which y is not idle yet, and everything delivered earlier is.
  lemma {:induction false} TimeBetween(s: Timed, y: nat, k: nat) returns (u: real)
    requires Clocked(s) && y in s.stamps && !IsIdle(s, y)
    ensures s.now <= u && s.stamps[y] < u < s.stamps[y] + IDLE
    ensures forall x: nat :: x < k && x in s.stamps && s.stamps[x] < s.stamps[y] ==> s.stamps[x] + IDLE <= u
    decreases k
  {
    if k == 0 {
      u := if s.now > s.stamps[y] then s.now else s.stamps[y] + 1.0;
    } else {
      u := TimeBetween(s, y, k - 1);
      if k - 1 in s.stamps && s.stamps[k - 1] < s.stamps[y] && s.stamps[k - 1] + IDLE > u {
        u := s.stamps[k - 1] + IDLE;
      }
    }
  }

  // A free replica claims whatever is idle now, and forgets it.
  lemma ClaimAndForget(s: Timed, r: nat, y: nat) returns (ids: seq<nat>, end: nat, t: Timed)
    requires Ready(s, r)
    ensures FirstIdle(s.group, Idles(s), ids, end) && StrictlyIncreasing(ids)
    ensures JustClaimed(s, ids, t) && Ready(t, r)
    ensures CanBeHandled(t, y) ==> CanBeHandled(s, y)
  {
    ids, end := ClaimableNow(s, r);
    hide Clocked, Possible, After, FirstIdle;
    if ids == [] {
      t := s;
    } else {
      Claimed(s, r, ids);
      var m := After(s, Step(Reclaim(r, ids)));
      CrashEffect(m, r);
      t := After(m, Step(Crash(r)));
      if CanBeHandled(t, y) {
        StillPossible(m, Step(Crash(r)), y);
        StillPossible(s, Step(Reclaim(r, ids)), y);
      }
    }
  }

  lemma Claimed(s: Timed, r: nat, ids: seq<nat>)
    requires Ready(s, r) && Possible(s, Step(Reclaim(r, ids)))
    ensures var t := After(s, Step(Reclaim(r, ids)));
      Clocked(t) && JustClaimed(s, ids, t) && r < |t.group.workers| && t.group.created
  {
    ClaimEffect(s, r, ids);
  }

  lemma WaitEffect(s: Timed, seconds: real, r: nat, y: nat)
    requires Ready(s, r) && seconds >= 0.0
    ensures var t := s.(now := s.now + seconds); Ready(t, r) && (CanBeHandled(t, y) ==> CanBeHandled(s, y))
  {
    var t := s.(now := s.now + seconds);
    assert Clocked(t) by { ClockedStays(s, Wait(seconds)); }
    if CanBeHandled(t, y) { StillPossible(s, Wait(seconds), y); }
  }

  // A claim at time u takes the obstacles that were delivered before y.
  lemma ObstacleTaken(m: Timed, ids: seq<nat>, end: nat, x: nat, y: nat)
    requires Inv(m.group) && FirstIdle(m.group, Idles(m), ids, end) && StrictlyIncreasing(ids)
    requires Roomy(m, y) && x < y && x in m.group.pending
    ensures x in ids <==> IsIdle(m, x)
  {
    MorePendingBelow(m.group.pending, x + 1, y + 1);
    ClaimReaches(m, ids, end, x);
    assert Idles(m)(x) == IsIdle(m, x);
  }

  // After that, an obstacle is not idle when y becomes so.
  lemma ObstacleNotIdle(s: Timed, u: real, ids: seq<nat>, end: nat, m: Timed, t: Timed, x: nat, y: nat)
    requires Clocked(s) && Roomy(s, y) && Obstacle(s, x, y) && y in s.stamps && s.stamps[x] != s.stamps[y]
    requires s.stamps[y] < u < s.stamps[y] + IDLE
    requires s.stamps[x] < s.stamps[y] ==> s.stamps[x] + IDLE <= u
    requires m == s.(now := u) && FirstIdle(m.group, Idles(m), ids, end) && StrictlyIncreasing(ids)
    requires JustClaimed(m, ids, t)
    ensures !IsIdle(t.(now := s.stamps[y] + IDLE), x)
  {
    ObstacleTaken(m, ids, end, x, y);
    hide Inv, FirstIdle, StrictlyIncreasing, PendingBelow;
  }

  // An entry that is not idle yet, and no obstacle of which was delivered together with it, can be handled:
  // what was delivered earlier is claimed in time, and is not idle when the entry becomes so.
  lemma ClaimLater(s: Timed, r: nat, y: nat)
    requires Ready(s, r) && Roomy(s, y) && !IsIdle(s, y) && y < |s.group.log| && Handleable(s.group.log[y])
    requires forall x: nat :: Obstacle(s, x, y) ==> s.stamps[x] != s.stamps[y]
    ensures CanBeHandled(s, y)
  {
    var u := TimeBetween(s, y, y);
    var m := s.(now := s.now + (u - s.now));
    WaitEffect(s, u - s.now, r, y);
    var ids, end, t := ClaimAndForget(m, r, y);
    var rest := s.stamps[y] + IDLE - u;
    var v := t.(now := t.now + rest);
    WaitEffect(t, rest, r, y);
    forall x: nat | Obstacle(v, x, y) ensures !IsIdle(v, x) {
      assert Obstacle(s, x, y);
      ObstacleNotIdle(s, u, ids, end, m, t, x, y);
    }
    assert y !in ids by { assert Idles(m)(y) == IsIdle(m, y); }
    FewerPending(v.group.pending, s.group.pending, y + 1);
    ClaimNow(v, r, y);
  }

  // Exactly which entries can still be handled, among those up to which a batch has room for all that is
  // pending: those that a replica is about to handle, and those not linked to an entry before them that is
  // not an object.
  lemma HandledIff(s: Timed, y: nat)
    requires Clocked(s) && s.group.created && |s.group.workers| > 0
    requires Roomy(s, y) && Handleable(s.group.log[y])
    ensures CanBeHandled(s, y) <==>
      (exists r :: Holds(s.group, r, y)) || (forall x: nat :: Obstacle(s, x, y) ==> !Linked(s, x, y))
  {
    if r :| Holds(s.group, r, y) {
      HolderHandles(s, r, y);
    } else if x: nat :| Obstacle(s, x, y) && Linked(s, x, y) {
      LinkedStarves(s, x, y);
    } else {
      UnlinkedHandled(s, y);
    }
  }

  lemma LinkedStarves(s: Timed, x: nat, y: nat)
    requires Clocked(s) && Roomy(s, y) && Obstacle(s, x, y) && Linked(s, x, y)
    requires forall r :: !Holds(s.group, r, y)
    ensures !CanBeHandled(s, y)
  {
    assert Blocked(s, x, y);
    if CanBeHandled(s, y) {
      var ms, t :| Runs(s, ms, t) && HandledSince(s.group, t.group, y);
      NeverHandled(s, ms, t, x, y);
      assert false;
    }
  }

  lemma UnlinkedHandled(s: Timed, y: nat)
    requires Clocked(s) && s.group.created && |s.group.workers| > 0
    requires Roomy(s, y) && y < |s.group.log| && Handleable(s.group.log[y])
    requires forall x: nat :: Obstacle(s, x, y) ==> !Linked(s, x, y)
    ensures CanBeHandled(s, y)
  {
    CrashEffect(s, 0);
    var t := After(s, Step(Crash(0)));
    hide After, Clocked, Inv, Possible, Linked;
    FewerPending(t.group.pending, s.group.pending, y + 1);
    forall x: nat | Obstacle(t, x, y) ensures Obstacle(s, x, y) && !Linked(s, x, y) {
    }
    NotLinked(s, t, y);
    if IsIdle(t, y) { ClaimNow(t, 0, y); } else { ClaimLater(t, 0, y); }
    StillPossible(s, Step(Crash(0)), y);
  }

  lemma NotLinked(s: Timed, t: Timed, y: nat)
    requires Clocked(s) && JustClaimed(s, [], t) && y in s.group.pending
    requires forall x: nat :: Obstacle(t, x, y) ==> Obstacle(s, x, y) && !Linked(s, x, y)
    ensures forall x: nat :: Obstacle(t, x, y) ==> t.stamps[x] != t.stamps[y] && !(IsIdle(t, x) && IsIdle(t, y))
  {
    forall x: nat | Obstacle(t, x, y)
      ensures x in t.stamps && y in t.stamps && t.stamps[x] != t.stamps[y] && !(IsIdle(t, x) && IsIdle(t, y))
    {
      assert Obstacle(s, x, y);
    }
  }
}
