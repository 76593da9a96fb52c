// The hint `retry_after` that a rejected caller is given.
module RetryHint {
  import opened Wrappers
  import opened TokenBucket
  import opened BucketLaws
  import opened ExpiringBucket

  // Whole seconds, rounded down, but at least one.
  function RetryAfter(rate: real): int {
    if rate == 0.0 then 1
    else
      var seconds := if rate > 0.0 then (1.0 / rate).Floor else -((-1.0 / rate).Floor);
      if seconds < 1 then 1 else seconds
  }

  predicate WholeSecondsPerToken(rate: real) {
    rate > 0.0 && (1.0 / rate).Floor as real == 1.0 / rate
  }

  lemma InverseTimes(rate: real)
    requires rate > 0.0
    ensures Refill(1.0 / rate, rate) == 1.0
    ensures rate > 1.0 ==> 1.0 / rate < 1.0
    ensures rate <= 1.0 ==> 1.0 / rate >= 1.0
  {
  }

  lemma ScaleStrictly(x: real, y: real, r: real)
    requires x < y && 0.0 < r
    ensures Refill(x, r) < Refill(y, r)
  {
  }

  lemma OneSecond(rate: real)
    ensures Refill(1.0, rate) == rate
  {
  }

  lemma WholeSecondsRefill(rate: real, inverse: real, seconds: real)
    requires rate > 0.0 && Refill(inverse, rate) == 1.0 && seconds <= inverse < seconds + 1.0
    ensures Refill(seconds, rate) > 1.0 - rate
    ensures Refill(seconds, rate) >= 1.0 <==> seconds == inverse
  {
    hide Refill;
    OneSecond(rate);
    ScaleStrictly(inverse, seconds + 1.0, rate);
    Distribute(seconds, 1.0, rate);
    if seconds < inverse { ScaleStrictly(seconds, inverse, rate); }
  }

  // What a caller that waits as told gains: at least one token exactly when a token takes no more than
  // a second, or a whole number of seconds.
  lemma RetryRefill(rate: real)
    requires rate > 0.0
    ensures Refill(RetryAfter(rate) as real, rate) > 1.0 - rate
    ensures Refill(RetryAfter(rate) as real, rate) >= 1.0 <==> rate >= 1.0 || WholeSecondsPerToken(rate)
  {
    hide Refill;
    InverseTimes(rate);
    OneSecond(rate);
    var inverse := 1.0 / rate;
    WholeSecondsRefill(rate, inverse, inverse.Floor as real);
    if rate > 1.0 {
      assert RetryAfter(rate) == 1;
    } else {
      assert RetryAfter(rate) == inverse.Floor;
      if rate == 1.0 { assert inverse == 1.0; }
    }
  }

  // The hint is the greatest whole number of seconds that a token does not take less than, or one second if
  // that is none; also without any refill.
  lemma HintIsTight(rate: real)
    ensures RetryAfter(rate) >= 1
    ensures rate > 0.0 ==> (RetryAfter(rate) as real + 1.0) * rate > 1.0
    ensures rate > 0.0 ==> RetryAfter(rate) == 1 || RetryAfter(rate) as real * rate <= 1.0
    ensures rate <= 0.0 ==> RetryAfter(rate) == 1
  {
    if rate > 0.0 {
      RetryRefill(rate);
      OneSecond(rate);
      InverseTimes(rate);
      Distribute(RetryAfter(rate) as real, 1.0, rate);
      var seconds := (1.0 / rate).Floor;
      Scale(seconds as real, 1.0 / rate, rate);
    } else if rate < 0.0 {
      assert 1.0 / rate < 0.0;
    }
  }

  // What a caller finds who comes back `wait` seconds after check n, the last one so far.
  function OnReturn(l: Limits, times: seq<real>, n: nat, wait: real): Option<Bucket>
    requires n < |times|
  {
    Unexpired(AfterExpiring(l, times, n + 1), times[n] + wait)
  }

  // Every caller that is rejected, and then waits as long as it was told, is admitted.
  ghost predicate HintSuffices(l: Limits) {
    forall times: seq<real>, n: nat :: Nondecreasing(times) && n < |times| && !AdmitsExpiring(l, times, n) ==>
      Allows(l, OnReturn(l, times, n, RetryAfter(l.rate) as real), times[n] + RetryAfter(l.rate) as real)
  }

  lemma {:induction false} ExpiringInRange(l: Limits, times: seq<real>, n: nat)
    requires l.Proper() && 0 < n <= |times|
    ensures AfterExpiring(l, times, n).value.ts == times[n - 1]
    ensures 0.0 <= AfterExpiring(l, times, n).value.tokens <= l.capacity as real
  {
    hide Refill;
    if n > 1 {
      ExpiringInRange(l, times, n - 1);
      var b := AfterExpiring(l, times, n - 1).value;
      CheckConserves(l, b, times[n - 1], Refill(Elapsed(b.ts, times[n - 1]), l.rate));
    }
  }

  // A rejected caller that comes back after `wait` seconds finds a full bucket if its key is gone by then,
  // and otherwise what was left and the refill.
  lemma AfterWaiting(l: Limits, times: seq<real>, n: nat, wait: real)
    requires l.Proper() && n < |times| && !AdmitsExpiring(l, times, n) && wait >= 0.0
    ensures AfterExpiring(l, times, n + 1).Some? && 0.0 <= AfterExpiring(l, times, n + 1).value.tokens < 1.0
    ensures Level(l, OnReturn(l, times, n, wait), times[n] + wait) ==
      if wait >= EXPIRY then l.capacity as real
      else Min(l.capacity as real, AfterExpiring(l, times, n + 1).value.tokens + Refill(wait, l.rate))
  {
    hide Refill;
    ExpiringInRange(l, times, n + 1);
    assert Elapsed(times[n], times[n] + wait) == wait;
  }

  // The hint is enough exactly when a token takes no more than a second, or a whole number of seconds, or
  // so long that the key is dropped before the caller returns.
  lemma HintSufficesIff(l: Limits)
    requires l.capacity >= 1 && l.rate >= 0.0
    ensures HintSuffices(l) <==>
      l.rate >= 1.0 || WholeSecondsPerToken(l.rate) || RetryAfter(l.rate) >= 3600
  {
    hide Refill;
    NoRefill(l.rate);
    if l.rate > 0.0 { RetryRefill(l.rate); } else { NoRate(RetryAfter(l.rate) as real); }
    var hint := RetryAfter(l.rate) as real;
    if l.rate >= 1.0 || WholeSecondsPerToken(l.rate) || hint >= EXPIRY {
      forall times: seq<real>, n: nat | Nondecreasing(times) && n < |times| && !AdmitsExpiring(l, times, n)
        ensures Allows(l, OnReturn(l, times, n, hint), times[n] + hint)
      {
        AfterWaiting(l, times, n, hint);
      }
    } else {
      var times := EmptiedBucket(l);
      AfterWaiting(l, times, l.capacity, hint);
      assert !Allows(l, OnReturn(l, times, l.capacity, hint), times[l.capacity] + hint);
    }
  }

  lemma NoRate(x: real)
    ensures Refill(x, 0.0) == 0.0
  {
  }

  // A burst of one check more than the capacity ends with a rejection and no tokens.
  lemma EmptiedBucket(l: Limits) returns (times: seq<real>)
    requires l.capacity >= 1 && l.rate >= 0.0
    ensures |times| == l.capacity + 1 && Nondecreasing(times) && times[l.capacity] == 0.0
    ensures !AdmitsExpiring(l, times, l.capacity)
    ensures AfterExpiring(l, times, l.capacity + 1) == Some(Bucket(0.0, 0.0))
  {
    times := seq(l.capacity + 1, _ => 0.0);
    Burst(l, times, l.capacity);
  }

  // One further second is always enough, and the hint alone comes within one second's refill of it.
  lemma HintAndOneSecond(l: Limits, times: seq<real>, n: nat)
    requires l.capacity >= 1 && l.rate > 0.0 && n < |times| && !AdmitsExpiring(l, times, n)
    ensures var hint := RetryAfter(l.rate) as real;
      && Level(l, OnReturn(l, times, n, hint), times[n] + hint) > 1.0 - l.rate
      && Allows(l, OnReturn(l, times, n, hint + 1.0), times[n] + (hint + 1.0))
  {
    hide Refill;
    var hint := RetryAfter(l.rate) as real;
    RetryRefill(l.rate);
    OneSecond(l.rate);
    Distribute(hint, 1.0, l.rate);
    AfterWaiting(l, times, n, hint);
    AfterWaiting(l, times, n, hint + 1.0);
  }
}
