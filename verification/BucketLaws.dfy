// Further laws of a bucket whose key is never dropped: rejected checks are invisible, and tokens are
// conserved under arbitrary timestamps.
module BucketLaws {
  import opened Wrappers
  import opened TokenBucket

  // ----- Lazy refill is continuous refill -----

  lemma RefillComposes(l: Limits, b: Option<Bucket>, now: real, later: real)
    requires l.rate >= 0.0 && now <= later && (b.Some? ==> b.value.ts <= now) && !Allows(l, b, now)
    ensures Level(l, Some(Written(l, b, now)), later) == Level(l, b, later)
  {
    hide Refill;
    NoRefill(l.rate);
    Scale(0.0, later - now, l.rate);
    if b.Some? {
      Distribute(now - b.value.ts, later - now, l.rate);
      assert (now - b.value.ts) + (later - now) == later - b.value.ts;
    }
  }

  // The checks that remain of the first n when some are deleted.
  function Kept(times: seq<real>, keep: seq<bool>, n: nat): seq<real>
    requires n <= |times| == |keep|
  {
    if n == 0 then [] else Kept(times, keep, n - 1) + (if keep[n - 1] then [times[n - 1]] else [])
  }

  lemma {:induction false} AfterPrefix(l: Limits, times: seq<real>, more: seq<real>, n: nat)
    requires n <= |times|
    ensures After(l, times + more, n) == After(l, times, n)
  {
    if n > 0 {
      AfterPrefix(l, times, more, n - 1);
    }
  }

  // Both histories lead to the same level at every later time.
  ghost predicate SameLater(l: Limits, b: Option<Bucket>, c: Option<Bucket>, from: real) {
    && (b.Some? ==> b.value.ts <= from) && (c.Some? ==> c.value.ts <= from)
    && forall t: real :: from <= t ==> Level(l, b, t) == Level(l, c, t)
  }

  predicate DropsOnlyRejected(l: Limits, times: seq<real>, keep: seq<bool>)
    requires |keep| == |times|
  {
    forall k :: 0 <= k < |times| && !keep[k] ==> !Admits(l, times, k)
  }

  lemma {:induction false} DeletionKeepsLevel(l: Limits, times: seq<real>, keep: seq<bool>, n: nat)
    requires l.rate >= 0.0 && Nondecreasing(times) && |keep| == |times| && n < |times|
    requires DropsOnlyRejected(l, times, keep)
    ensures SameLater(l, After(l, Kept(times, keep, n), |Kept(times, keep, n)|), After(l, times, n), times[n])
  {
    if n > 0 {
      var m := n - 1;
      DeletionKeepsLevel(l, times, keep, m);
      var kept, now := Kept(times, keep, m), times[m];
      var b, c := After(l, kept, |kept|), After(l, times, m);
      assert times[m] <= times[n];
      if keep[m] {
        AfterPrefix(l, kept, [now], |kept|);
        assert Written(l, b, now) == Written(l, c, now);
      } else {
        assert Kept(times, keep, n) == kept;
        forall t: real | times[n] <= t ensures Level(l, b, t) == Level(l, Some(Written(l, c, now)), t) {
          RefillComposes(l, c, now, t);
        }
      }
    }
  }

  // Deleting any set of rejected checks from a history changes no decision that remains, and no level
  // that a later check would find.
  lemma RejectedAreInvisible(l: Limits, times: seq<real>, keep: seq<bool>, n: nat)
    requires l.rate >= 0.0 && Nondecreasing(times) && |keep| == |times| && n < |times|
    requires DropsOnlyRejected(l, times, keep)
    ensures var kept := Kept(times, keep, n);
      && Level(l, After(l, kept, |kept|), times[n]) == Tokens(l, times, n)
      && (keep[n] ==> Kept(times, keep, n + 1) == kept + [times[n]])
      && (keep[n] ==> (Admits(l, kept + [times[n]], |kept|) <==> Admits(l, times, n)))
  {
    DeletionKeepsLevel(l, times, keep, n);
    var kept := Kept(times, keep, n);
    AfterPrefix(l, kept, [times[n]], |kept|);
  }

  // ----- Skewed clocks -----

  // The sum of the forward jumps between consecutive timestamps of the first n checks.
  function Jumps(times: seq<real>, n: nat): real
    requires n <= |times|
  {
    if n <= 1 then 0.0
    else Jumps(times, n - 1) + (if times[n - 2] < times[n - 1] then times[n - 1] - times[n - 2] else 0.0)
  }

  // The refill that a full bucket discarded on the way.
  function Spilled(l: Limits, times: seq<real>, n: nat): real
    requires n <= |times|
  {
    if n <= 1 then 0.0
    else
      var b := After(l, times, n - 1).value;
      Spilled(l, times, n - 1)
        + (b.tokens + Refill(Elapsed(b.ts, times[n - 1]), l.rate) - Level(l, Some(b), times[n - 1]))
  }

  function JumpRefill(times: seq<real>, n: nat, rate: real): real
    requires n <= |times|
  {
    if n <= 1 then 0.0 else JumpRefill(times, n - 1, rate) + Refill(Elapsed(times[n - 2], times[n - 1]), rate)
  }

  lemma {:induction false} JumpRefillIs(times: seq<real>, n: nat, rate: real)
    requires n <= |times|
    ensures JumpRefill(times, n, rate) == Refill(Jumps(times, n), rate)
  {
    hide Refill;
    NoRefill(rate);
    if n > 1 {
      JumpRefillIs(times, n - 1, rate);
      Distribute(Jumps(times, n - 1), Elapsed(times[n - 2], times[n - 1]), rate);
    }
  }

  // One check hands out, keeps and discards exactly what it found.
  lemma CheckConserves(l: Limits, b: Bucket, now: real, refill: real)
    requires l.Proper() && 0.0 <= b.tokens <= l.capacity as real && refill == Refill(Elapsed(b.ts, now), l.rate)
    ensures 0.0 <= Written(l, Some(b), now).tokens <= l.capacity as real
    ensures Level(l, Some(b), now) <= b.tokens + refill
    ensures Level(l, Some(b), now) ==
      Written(l, Some(b), now).tokens + (if Allows(l, Some(b), now) then 1.0 else 0.0)
  {
    hide Refill;
    NoRefill(l.rate);
    Scale(0.0, Elapsed(b.ts, now), l.rate);
  }

  lemma {:induction false} TokensInRange(l: Limits, times: seq<real>, n: nat)
    requires l.Proper() && 0 < n <= |times|
    ensures After(l, times, n).value.ts == times[n - 1]
    ensures 0.0 <= After(l, times, n).value.tokens <= l.capacity as real
  {
    hide Refill;
    if n > 1 {
      TokensInRange(l, times, n - 1);
      var b := After(l, times, n - 1).value;
      CheckConserves(l, b, times[n - 1], Refill(Elapsed(times[n - 2], times[n - 1]), l.rate));
    }
  }

  lemma {:induction false} RefillIsConserved(l: Limits, times: seq<real>, n: nat)
    requires l.Proper() && 0 < n <= |times|
    ensures Spilled(l, times, n) >= 0.0
    ensures Admitted(l, times, 0, n) as real + After(l, times, n).value.tokens + Spilled(l, times, n)
            == l.capacity as real + JumpRefill(times, n, l.rate)
  {
    hide Refill;
    if n == 1 {
      assert Admitted(l, times, 0, 1) == Admitted(l, times, 0, 0) + (if Admits(l, times, 0) then 1 else 0);
    } else {
      RefillIsConserved(l, times, n - 1);
      TokensInRange(l, times, n - 1);
      var b := After(l, times, n - 1).value;
      var refill := Refill(Elapsed(times[n - 2], times[n - 1]), l.rate);
      CheckConserves(l, b, times[n - 1], refill);
      assert Spilled(l, times, n) == Spilled(l, times, n - 1) + (b.tokens + refill - Level(l, Some(b), times[n - 1]));
      assert JumpRefill(times, n, l.rate) == JumpRefill(times, n - 1, l.rate) + refill;
      assert After(l, times, n) == Some(Written(l, Some(b), times[n - 1]));
      assert Admitted(l, times, 0, n) ==
             Admitted(l, times, 0, n - 1) + (if Allows(l, Some(b), times[n - 1]) then 1 else 0);
    }
  }

  // Whatever timestamps the callers supply, tokens are conserved: what was admitted, is left and was
  // discarded adds up to a full bucket and the refill of the forward jumps. A backward jump refills
  // nothing, but the time it stores is refilled again by the next forward one.
  lemma TokensAreConserved(l: Limits, times: seq<real>, n: nat)
    requires l.Proper() && 0 < n <= |times|
    ensures 0.0 <= After(l, times, n).value.tokens <= l.capacity as real
    ensures Spilled(l, times, n) >= 0.0
    ensures Admitted(l, times, 0, n) as real + After(l, times, n).value.tokens + Spilled(l, times, n)
            == l.capacity as real + Refill(Jumps(times, n), l.rate)
  {
    hide Refill;
    RefillIsConserved(l, times, n);
    TokensInRange(l, times, n);
    JumpRefillIs(times, n, l.rate);
  }

  lemma SkewBound(l: Limits, times: seq<real>, n: nat)
    requires l.Proper() && 0 < n <= |times|
    ensures Admitted(l, times, 0, n) as real <= l.capacity as real + Refill(Jumps(times, n), l.rate)
  {
    hide Refill;
    TokensAreConserved(l, times, n);
  }
}
