// The bucket as the script keeps it: every check, admitted or not, renews the key for an hour, and a key
// that is dropped makes the bucket full again. Gateway and server clocks agree here.
module ExpiringBucket {
  import opened Wrappers
  import opened TokenBucket
  import opened BucketLaws

  const EXPIRY := 3600.0

  // An hour's refill is a full bucket, or there is nothing to fill.
  predicate HourFills(l: Limits) {
    l.capacity <= 0 || l.capacity as real <= Refill(EXPIRY, l.rate)
  }

  // The bucket as a check finds it when the key is dropped after an idle hour.
  function Unexpired(b: Option<Bucket>, now: real): Option<Bucket> {
    if b.Some? && now - b.value.ts >= EXPIRY then None else b
  }

  function AfterExpiring(l: Limits, times: seq<real>, n: nat): Option<Bucket>
    requires n <= |times|
  {
    if n == 0 then None
    else Some(Written(l, Unexpired(AfterExpiring(l, times, n - 1), times[n - 1]), times[n - 1]))
  }

  predicate AdmitsExpiring(l: Limits, times: seq<real>, n: nat)
    requires n < |times|
  {
    Allows(l, Unexpired(AfterExpiring(l, times, n), times[n]), times[n])
  }

  lemma ExpiredLevel(l: Limits, b: Bucket, now: real)
    requires l.rate >= 0.0 && b.ts + EXPIRY <= now
    requires if l.capacity <= 0 then b.tokens >= l.capacity as real
             else b.tokens >= 0.0 && l.capacity as real <= Refill(EXPIRY, l.rate)
    ensures Level(l, Some(b), now) == Level(l, None, now)
  {
    hide Refill;
    NoRefill(l.rate);
    Scale(EXPIRY, now - b.ts, l.rate);
    Scale(0.0, EXPIRY, l.rate);
  }

  lemma {:induction false} ExpiryKeepsBucket(l: Limits, times: seq<real>, n: nat)
    requires l.rate >= 0.0 && Nondecreasing(times) && n <= |times| && HourFills(l)
    ensures AfterExpiring(l, times, n) == After(l, times, n)
    ensures n > 0 ==> After(l, times, n).value.tokens >= (if l.capacity <= 0 then l.capacity as real else 0.0)
    ensures n > 0 ==> After(l, times, n).value.ts == times[n - 1]
    ensures n < |times| ==> Level(l, Unexpired(AfterExpiring(l, times, n), times[n]), times[n]) == Tokens(l, times, n)
  {
    hide Refill;
    NoRefill(l.rate);
    if n > 0 {
      ExpiryKeepsBucket(l, times, n - 1);
      if n > 1 { Scale(0.0, Elapsed(times[n - 2], times[n - 1]), l.rate); }
      if n < |times| && times[n] - times[n - 1] >= EXPIRY { ExpiredLevel(l, After(l, times, n).value, times[n]); }
    }
  }

  lemma ExpiryKeepsDecision(l: Limits, times: seq<real>, n: nat)
    requires l.rate >= 0.0 && Nondecreasing(times) && n < |times| && HourFills(l)
    ensures AdmitsExpiring(l, times, n) <==> Admits(l, times, n)
  {
    ExpiryKeepsBucket(l, times, n);
  }

  // k checks at the same moment take one token each, as long as they last.
  lemma {:induction false} Burst(l: Limits, times: seq<real>, k: nat)
    requires k <= |times| && k <= l.capacity && l.rate >= 0.0
    requires forall i :: 0 <= i < k ==> times[i] == 0.0
    ensures k > 0 ==> After(l, times, k) == Some(Bucket((l.capacity - k) as real, 0.0))
    ensures AfterExpiring(l, times, k) == After(l, times, k)
    ensures forall i: nat :: i < k ==> Admits(l, times, i) && AdmitsExpiring(l, times, i)
  {
    hide Refill;
    NoRefill(l.rate);
    if k > 0 {
      Burst(l, times, k - 1);
    }
  }

  function TwoBursts(capacity: nat): (times: seq<real>)
    ensures |times| == 2 * capacity
    ensures forall i :: 0 <= i < |times| ==> times[i] == if i < capacity then 0.0 else EXPIRY
  {
    seq(2 * capacity, i => if i < capacity then 0.0 else EXPIRY)
  }

  // One check of a burst, with `left` tokens there.
  lemma TakesOne(l: Limits, b: Option<Bucket>, left: nat, now: real)
    requires 0 < left <= l.capacity
    requires if left == l.capacity then b.None? else b == Some(Bucket(left as real, now))
    ensures Allows(l, b, now) && Written(l, b, now) == Bucket((left - 1) as real, now)
    ensures Unexpired(Some(Bucket((left - 1) as real, now)), now) == Some(Bucket((left - 1) as real, now))
  {
    hide Refill;
    NoRefill(l.rate);
  }

  predicate AllAdmittedExpiring(l: Limits, times: seq<real>, i: nat, j: nat)
    requires j <= |times|
  {
    forall k: nat :: i <= k < j ==> AdmitsExpiring(l, times, k)
  }

  // After an idle hour the expired bucket is full again.
  lemma HourLater(l: Limits, times: seq<real>, n: nat)
    requires 0 < n < |times| && AfterExpiring(l, times, n).Some? && AfterExpiring(l, times, n).value.ts == 0.0
    requires times[n] == EXPIRY
    ensures Unexpired(AfterExpiring(l, times, n), times[n]) == None
  {
  }

  // The bucket that check `n` of the second burst finds, with `left` tokens there.
  ghost predicate Finds(l: Limits, times: seq<real>, n: nat, left: nat) {
    && 0 < left <= l.capacity && n < |times| && times[n] == EXPIRY
    && Unexpired(AfterExpiring(l, times, n), EXPIRY) ==
         if left == l.capacity then None else Some(Bucket(left as real, EXPIRY))
  }

  lemma FindsNext(l: Limits, times: seq<real>, n: nat, left: nat)
    requires Finds(l, times, n, left)
    ensures AdmitsExpiring(l, times, n)
    ensures n + 1 < |times| && times[n + 1] == EXPIRY && left > 1 ==> Finds(l, times, n + 1, left - 1)
  {
    TakesOne(l, Unexpired(AfterExpiring(l, times, n), EXPIRY), left, EXPIRY);
  }

  lemma FirstBurst(l: Limits)
    requires l.capacity > 0 && l.rate >= 0.0
    ensures Finds(l, TwoBursts(l.capacity), l.capacity, l.capacity)
  {
    var times := TwoBursts(l.capacity);
    Burst(l, times, l.capacity);
    HourLater(l, times, l.capacity);
  }

  lemma {:induction false} SecondBurst(l: Limits, k: nat)
    requires l.capacity > 0 && l.rate >= 0.0 && k < l.capacity
    ensures Finds(l, TwoBursts(l.capacity), l.capacity + k, l.capacity - k)
    ensures AllAdmittedExpiring(l, TwoBursts(l.capacity), l.capacity, l.capacity + k + 1)
  {
    hide TwoBursts, Finds, AfterExpiring, After, AdmitsExpiring, Admits;
    var times := TwoBursts(l.capacity);
    assert times[l.capacity + k] == EXPIRY;
    if k == 0 {
      FirstBurst(l);
    } else {
      SecondBurst(l, k - 1);
      FindsNext(l, times, l.capacity + k - 1, l.capacity - k + 1);
    }
    FindsNext(l, times, l.capacity + k, l.capacity - k);
  }

  lemma {:induction false} AllAdmitted(l: Limits, times: seq<real>, n: nat)
    requires n <= |times| && forall i: nat :: i < n ==> Admits(l, times, i)
    ensures Admitted(l, times, 0, n) == n
  {
    if n > 0 {
      AllAdmitted(l, times, n - 1);
    }
  }

  ghost predicate ExpiryUnobservable(l: Limits) {
    forall times: seq<real>, n: nat :: Nondecreasing(times) && n < |times| ==>
      (AdmitsExpiring(l, times, n) <==> Admits(l, times, n))
  }

  lemma ExpiryIsObservable(l: Limits)
    requires l.rate >= 0.0 && !HourFills(l)
    ensures !ExpiryUnobservable(l)
  {
    var times, n := TwoBursts(l.capacity), 2 * l.capacity;
    assert Nondecreasing(times);
    Burst(l, times, l.capacity);
    SecondBurst(l, l.capacity - 1);
    if forall i: nat :: i < n ==> Admits(l, times, i) {
      AllAdmitted(l, times, n);
      WindowBound(l, times, 0, n - 1);
      TwoBurstsRoom(l);
      assert false;
    }
    var i: nat :| i < n && !Admits(l, times, i);
    assert AdmitsExpiring(l, times, i);
  }

  lemma TwoBurstsRoom(l: Limits)
    requires l.capacity > 0
    ensures Room(l, TwoBursts(l.capacity), 0, 2 * l.capacity - 1) == l.capacity as real + Refill(EXPIRY, l.rate)
  {
  }

  // When clocks agree, dropping idle keys shows in no decision exactly if an hour's refill is a full
  // bucket (or the bucket can never admit anything).
  lemma ExpiryUnobservableIff(l: Limits)
    requires l.rate >= 0.0
    ensures ExpiryUnobservable(l) <==> l.capacity <= 0 || l.capacity as real <= 3600.0 * l.rate
  {
    if HourFills(l) {
      forall times: seq<real>, n: nat | Nondecreasing(times) && n < |times|
        ensures AdmitsExpiring(l, times, n) <==> Admits(l, times, n)
      {
        ExpiryKeepsDecision(l, times, n);
      }
    } else {
      ExpiryIsObservable(l);
    }
  }

  // ----- The window law of the script -----

  // The check that found no key and started the life of the bucket that check n finds.
  function Birth(times: seq<real>, n: nat): (g: nat)
    requires n < |times|
    ensures g <= n
  {
    if n == 0 || times[n] - times[n - 1] >= EXPIRY then n else Birth(times, n - 1)
  }

  // How many of the checks i, ..., j - 1 the script admits.
  function AdmittedExpiring(l: Limits, times: seq<real>, i: nat, j: nat): nat
    requires j <= |times|
  {
    if j <= i then 0 else AdmittedExpiring(l, times, i, j - 1) + (if AdmitsExpiring(l, times, j - 1) then 1 else 0)
  }

  // Within a life, the bucket is one that never expires and was born with it.
  lemma {:induction false} OneLife(l: Limits, times: seq<real>, n: nat)
    requires n < |times|
    ensures var g := Birth(times, n);
      && Unexpired(AfterExpiring(l, times, n), times[n]) == After(l, times[g..], n - g)
      && (AdmitsExpiring(l, times, n) <==> Admits(l, times[g..], n - g))
  {
    hide Refill, Allows, Written;
    var g := Birth(times, n);
    if g < n {
      OneLife(l, times, n - 1);
      assert times[g..][n - 1 - g] == times[n - 1];
      WrittenAt(l, Unexpired(AfterExpiring(l, times, n - 1), times[n - 1]), times[n - 1]);
    } else if n > 0 {
      WrittenAt(l, Unexpired(AfterExpiring(l, times, n - 1), times[n - 1]), times[n - 1]);
    }
    assert times[g..][n - g] == times[n];
  }

  lemma WrittenAt(l: Limits, b: Option<Bucket>, now: real)
    ensures Written(l, b, now).ts == now
  {
  }

  lemma {:induction false} SameBirth(times: seq<real>, n: nat, k: nat)
    requires n < |times| && Birth(times, n) <= k <= n
    ensures Birth(times, k) == Birth(times, n)
  {
    if k < n { SameBirth(times, n - 1, k); }
  }

  lemma {:induction false} AdmittedInLife(l: Limits, times: seq<real>, n: nat, i: nat, j: nat)
    requires n < |times| && Birth(times, n) <= i <= j <= n
    ensures var g := Birth(times, n); AdmittedExpiring(l, times, i, j) == Admitted(l, times[g..], i - g, j - g)
  {
    hide AdmitsExpiring, Admits;
    if i < j {
      AdmittedInLife(l, times, n, i, j - 1);
      SameBirth(times, n, j - 1);
      OneLife(l, times, j - 1);
    }
  }

  // A window in a life, seen from the life's first check.
  lemma SameWindow(l: Limits, times: seq<real>, n: nat, i: nat)
    requires n < |times| && Birth(times, n) <= i <= n
    ensures var g := Birth(times, n);
      && AdmittedExpiring(l, times, i, n) == Admitted(l, times[g..], i - g, n - g)
      && Room(l, times, i, n) == Room(l, times[g..], i - g, n - g)
  {
    AdmittedInLife(l, times, n, i, n);
    hide Refill, Admitted, AdmittedExpiring;
  }

  // The exact law of the script: a check is admitted precisely when no window that starts within the life
  // of its key, and ends at it, would overflow.
  lemma ExpiringWindowLaw(l: Limits, times: seq<real>, n: nat)
    requires n < |times| && Nondecreasing(times)
    ensures AdmitsExpiring(l, times, n) <==>
      forall i: nat :: Birth(times, n) <= i <= n ==>
        (AdmittedExpiring(l, times, i, n) + 1) as real <= Room(l, times, i, n)
  {
    if AdmitsExpiring(l, times, n) {
      forall i: nat | Birth(times, n) <= i <= n
        ensures (AdmittedExpiring(l, times, i, n) + 1) as real <= Room(l, times, i, n)
      {
        AdmittedFits(l, times, n, i);
      }
    } else {
      var i := RejectedOverflows(l, times, n);
    }
  }

  lemma AdmittedFits(l: Limits, times: seq<real>, n: nat, i: nat)
    requires n < |times| && Nondecreasing(times) && AdmitsExpiring(l, times, n) && Birth(times, n) <= i <= n
    ensures (AdmittedExpiring(l, times, i, n) + 1) as real <= Room(l, times, i, n)
  {
    var g := Birth(times, n);
    assert Nondecreasing(times[g..]);
    OneLife(l, times, n);
    WindowLaw(l, times[g..], n - g);
    SameWindow(l, times, n, i);
    hide *;
    assert (Admitted(l, times[g..], i - g, n - g) + 1) as real <= Room(l, times[g..], i - g, n - g);
  }

  lemma RejectedOverflows(l: Limits, times: seq<real>, n: nat) returns (i: nat)
    requires n < |times| && Nondecreasing(times) && !AdmitsExpiring(l, times, n)
    ensures Birth(times, n) <= i <= n
    ensures (AdmittedExpiring(l, times, i, n) + 1) as real > Room(l, times, i, n)
  {
    var g := Birth(times, n);
    var life, m := times[g..], n - g;
    assert Nondecreasing(life);
    OneLife(l, times, n);
    WindowLaw(l, life, m);
    hide *;
    var k: nat :| k <= m && (Admitted(l, life, k, m) + 1) as real > Room(l, life, k, m);
    i := k + g;
    SameWindow(l, times, n, i);
  }

  // ----- Greedy stays optimal -----

  lemma {:induction false} AdmittedExpiringSplit(l: Limits, times: seq<real>, i: nat, j: nat)
    requires i <= j <= |times|
    ensures AdmittedExpiring(l, times, 0, j) == AdmittedExpiring(l, times, 0, i) + AdmittedExpiring(l, times, i, j)
  {
    if i < j { AdmittedExpiringSplit(l, times, i, j - 1); }
  }

  // On every prefix, no policy within the limits has admitted more checks than the script.
  lemma {:induction false} ExpiringIsOptimal(l: Limits, times: seq<real>, choice: seq<bool>, n: nat)
    requires Nondecreasing(times) && Feasible(l, times, choice) && n <= |times|
    ensures Chosen(choice, 0, n) <= AdmittedExpiring(l, times, 0, n)
  {
    hide Room;
    if n > 0 {
      var last := n - 1;
      ExpiringIsOptimal(l, times, choice, last);
      if choice[last] && !AdmitsExpiring(l, times, last) {
        ExpiringWindowLaw(l, times, last);
        var i: nat :| Birth(times, last) <= i <= last
                      && (AdmittedExpiring(l, times, i, last) + 1) as real > Room(l, times, i, last);
        assert Chosen(choice, i, n) as real <= Room(l, times, i, last);
        assert Chosen(choice, i, n) <= AdmittedExpiring(l, times, i, last);
        ExpiringIsOptimal(l, times, choice, i);
        ChosenSplit(choice, i, n);
        AdmittedExpiringSplit(l, times, i, last);
      }
    }
  }

  // ----- When the limits are kept -----

  function AdmittedDuringExpiring(l: Limits, times: seq<real>, n: nat, from: real, to: real): nat
    requires n <= |times|
  {
    if n == 0 then 0
    else AdmittedDuringExpiring(l, times, n - 1, from, to)
         + (if from <= times[n - 1] <= to && AdmitsExpiring(l, times, n - 1) then 1 else 0)
  }

  // In no run does any window of time see more than a full bucket and what is refilled during it.
  ghost predicate WindowsAreBounded(l: Limits) {
    forall times: seq<real>, from: real, to: real :: Nondecreasing(times) && from <= to ==>
      AdmittedDuringExpiring(l, times, |times|, from, to) as real <= l.capacity as real + Refill(to - from, l.rate)
  }

  lemma {:induction false} SameDuring(l: Limits, times: seq<real>, n: nat, from: real, to: real)
    requires l.rate >= 0.0 && Nondecreasing(times) && n <= |times| && HourFills(l)
    ensures AdmittedDuringExpiring(l, times, n, from, to) == AdmittedDuring(l, times, n, from, to)
  {
    if n > 0 {
      SameDuring(l, times, n - 1, from, to);
      ExpiryKeepsDecision(l, times, n - 1);
    }
  }

  lemma {:induction false} AllDuring(l: Limits, times: seq<real>, n: nat, from: real, to: real)
    requires n <= |times| && AllAdmittedExpiring(l, times, 0, n)
    requires forall k :: 0 <= k < n ==> from <= times[k] <= to
    ensures AdmittedDuringExpiring(l, times, n, from, to) == n
  {
    if n > 0 { AllDuring(l, times, n - 1, from, to); }
  }

  // Two bursts an hour apart are all admitted.
  lemma BothBursts(l: Limits)
    requires l.capacity > 0 && l.rate >= 0.0
    ensures Nondecreasing(TwoBursts(l.capacity))
    ensures AllAdmittedExpiring(l, TwoBursts(l.capacity), 0, 2 * l.capacity)
  {
    Burst(l, TwoBursts(l.capacity), l.capacity);
    SecondBurst(l, l.capacity - 1);
  }

  // The bound that the limiter is there for holds of the script exactly when an hour's refill is a full
  // bucket: otherwise whoever stays away for an hour gets more than the rate allows.
  lemma WindowsAreBoundedIff(l: Limits)
    requires l.Proper()
    ensures WindowsAreBounded(l) <==> l.capacity <= 0 || l.capacity as real <= 3600.0 * l.rate
  {
    if HourFills(l) {
      forall times: seq<real>, from: real, to: real | Nondecreasing(times) && from <= to
        ensures AdmittedDuringExpiring(l, times, |times|, from, to) as real
                <= l.capacity as real + Refill(to - from, l.rate)
      {
        SameDuring(l, times, |times|, from, to);
        TimeWindowBound(l, times, from, to);
      }
    } else {
      var times := TwoBursts(l.capacity);
      BothBursts(l);
      AllDuring(l, times, |times|, 0.0, EXPIRY);
      assert EXPIRY - 0.0 == EXPIRY;
    }
  }

  // ----- When rejected checks are invisible -----

  predicate DropsOnlyRefused(l: Limits, times: seq<real>, keep: seq<bool>)
    requires |keep| == |times|
  {
    forall k :: 0 <= k < |times| && !keep[k] ==> !AdmitsExpiring(l, times, k)
  }

  // Deleting rejected checks from a history never changes the decision on a check that is kept.
  ghost predicate RefusedAreInvisible(l: Limits) {
    forall times: seq<real>, keep: seq<bool>, n: nat ::
      Nondecreasing(times) && |keep| == |times| && n < |times| && keep[n] && DropsOnlyRefused(l, times, keep) ==>
        KeptDecision(l, times, keep, n)
  }

  predicate KeptDecision(l: Limits, times: seq<real>, keep: seq<bool>, n: nat)
    requires n < |times| == |keep|
  {
    var kept := Kept(times, keep, n);
    AdmitsExpiring(l, kept + [times[n]], |kept|) == AdmitsExpiring(l, times, n)
  }

  lemma {:induction false} KeptIsOrdered(times: seq<real>, keep: seq<bool>, n: nat)
    requires Nondecreasing(times) && |keep| == |times| && n < |times|
    ensures Nondecreasing(Kept(times, keep, n))
    ensures forall i :: 0 <= i < |Kept(times, keep, n)| ==> Kept(times, keep, n)[i] <= times[n]
  {
    if n > 0 {
      KeptIsOrdered(times, keep, n - 1);
      assert times[n - 1] <= times[n];
    }
  }

  // The first burst, a check shortly after it, and the second burst.
  function Knock(capacity: nat, t: real): (times: seq<real>)
    ensures |times| == 2 * capacity + 1
    ensures forall i :: 0 <= i < |times| ==>
      times[i] == if i < capacity then 0.0 else if i == capacity then t else EXPIRY
  {
    seq(2 * capacity + 1, i => if i < capacity then 0.0 else if i == capacity then t else EXPIRY)
  }

  function AllBut(size: nat, k: nat): (keep: seq<bool>)
    ensures |keep| == size && forall i :: 0 <= i < size ==> keep[i] == (i != k)
  {
    seq(size, i => i != k)
  }

  lemma {:induction false} KeptOfKnock(capacity: nat, t: real, n: nat)
    requires n <= 2 * capacity + 1
    ensures Kept(Knock(capacity, t), AllBut(2 * capacity + 1, capacity), n)
            == TwoBursts(capacity)[..if n <= capacity then n else n - 1]
  {
    if n > 0 { KeptOfKnock(capacity, t, n - 1); }
  }

  lemma {:induction false} AfterExpiringPrefix(l: Limits, times: seq<real>, m: nat, n: nat)
    requires n <= m <= |times|
    ensures AfterExpiring(l, times[..m], n) == AfterExpiring(l, times, n)
    ensures n < m ==> AdmitsExpiring(l, times[..m], n) == AdmitsExpiring(l, times, n)
  {
    if n > 0 { AfterExpiringPrefix(l, times, m, n - 1); }
  }

  lemma {:induction false} OneLong(times: seq<real>, n: nat)
    requires n < |times| && forall i :: 0 < i < |times| ==> times[i] - times[i - 1] < EXPIRY
    ensures Birth(times, n) == 0
  {
    if n > 0 { OneLong(times, n - 1); }
  }

  lemma {:induction false} AtLeast(l: Limits, times: seq<real>, n: nat, k: nat)
    requires n <= |times| && forall i: nat :: i < n && i != k ==> Admits(l, times, i)
    ensures Admitted(l, times, 0, n) >= (if k < n then n - 1 else n)
  {
    if n > 0 { AtLeast(l, times, n - 1, k); }
  }

  // Soon enough after a burst for a check to be rejected.
  lemma Shortly(rate: real) returns (t: real)
    requires rate >= 0.0
    ensures 0.0 < t <= 1.0 && Refill(t, rate) < 1.0
  {
    t := 1.0 / (rate + 1.0);
    assert t * (rate + 1.0) == 1.0;
    assert t * rate == 1.0 - t;
  }

  lemma KnockRejected(l: Limits, t: real)
    requires l.capacity > 0 && l.rate >= 0.0 && 0.0 < t <= 1.0 && Refill(t, l.rate) < 1.0
    ensures !AdmitsExpiring(l, Knock(l.capacity, t), l.capacity)
  {
    Burst(l, Knock(l.capacity, t), l.capacity);
    hide Refill;
    assert Elapsed(0.0, t) == t;
  }

  lemma KnockNeverExpires(l: Limits, t: real)
    requires l.capacity > 0 && 0.0 < t <= 1.0
    ensures Nondecreasing(Knock(l.capacity, t))
    ensures forall i: nat :: i <= 2 * l.capacity ==>
      AdmitsExpiring(l, Knock(l.capacity, t), i) == Admits(l, Knock(l.capacity, t), i)
  {
    var times := Knock(l.capacity, t);
    forall i: nat | i <= 2 * l.capacity ensures AdmitsExpiring(l, times, i) == Admits(l, times, i) {
      OneLong(times, i);
      OneLife(l, times, i);
      assert times[0..] == times;
    }
  }

  // The early knock is rejected, but it renews the key: the second burst is then not admitted in full.
  lemma KnockCosts(l: Limits, t: real) returns (n: nat)
    requires l.rate >= 0.0 && !HourFills(l) && 0.0 < t <= 1.0 && Refill(t, l.rate) < 1.0
    ensures Nondecreasing(Knock(l.capacity, t)) && !AdmitsExpiring(l, Knock(l.capacity, t), l.capacity)
    ensures l.capacity < n <= 2 * l.capacity && !AdmitsExpiring(l, Knock(l.capacity, t), n)
  {
    var times, last := Knock(l.capacity, t), 2 * l.capacity;
    KnockRejected(l, t);
    KnockNeverExpires(l, t);
    Burst(l, times, l.capacity);
    assert EXPIRY - 0.0 == EXPIRY && Room(l, times, 0, last) == l.capacity as real + Refill(EXPIRY, l.rate);
    hide Refill, AdmitsExpiring, Admits, Knock, Room, Admitted;
    if forall i: nat :: i <= last && i != l.capacity ==> Admits(l, times, i) {
      AtLeast(l, times, last + 1, l.capacity);
      WindowBound(l, times, 0, last);
      assert false;
    }
    n :| n <= last && n != l.capacity && !Admits(l, times, n);
  }

  // Without the knock, the second burst is admitted.
  lemma KnockDeleted(l: Limits, t: real, n: nat)
    requires l.capacity > 0 && l.rate >= 0.0 && l.capacity < n <= 2 * l.capacity
    ensures var kept := Kept(Knock(l.capacity, t), AllBut(2 * l.capacity + 1, l.capacity), n);
      |kept| == n - 1 && AdmitsExpiring(l, kept + [Knock(l.capacity, t)[n]], |kept|)
  {
    var times, both := Knock(l.capacity, t), TwoBursts(l.capacity);
    KeptOfKnock(l.capacity, t, n);
    BothBursts(l);
    AfterExpiringPrefix(l, both, n, n - 1);
    hide AdmitsExpiring, Kept, TwoBursts, Knock, AllBut;
    assert both[..n - 1] + [times[n]] == both[..n];
  }

  lemma KnockShows(l: Limits)
    requires l.rate >= 0.0 && !HourFills(l)
    ensures !RefusedAreInvisible(l)
  {
    var t := Shortly(l.rate);
    var n := KnockCosts(l, t);
    KnockDeleted(l, t, n);
    hide HourFills, AdmitsExpiring, Kept, Knock, AllBut, Nondecreasing;
    assert !KeptDecision(l, Knock(l.capacity, t), AllBut(2 * l.capacity + 1, l.capacity), n);
  }

  lemma HourHides(l: Limits, times: seq<real>, keep: seq<bool>, n: nat)
    requires l.rate >= 0.0 && HourFills(l)
    requires Nondecreasing(times) && |keep| == |times| && n < |times| && keep[n] && DropsOnlyRefused(l, times, keep)
    ensures KeptDecision(l, times, keep, n)
  {
    var kept := Kept(times, keep, n);
    forall k | 0 <= k < |times| ensures AdmitsExpiring(l, times, k) == Admits(l, times, k) {
      ExpiryKeepsDecision(l, times, k);
    }
    KeptIsOrdered(times, keep, n);
    RejectedAreInvisible(l, times, keep, n);
    ExpiryKeepsDecision(l, kept + [times[n]], |kept|);
  }

  // Rejected checks are invisible to the decisions of the script exactly under the same condition: where an
  // hour's refill falls short, a rejected check costs its caller the fresh bucket it was waiting for.
  lemma RefusedAreInvisibleIff(l: Limits)
    requires l.rate >= 0.0
    ensures RefusedAreInvisible(l) <==> l.capacity <= 0 || l.capacity as real <= 3600.0 * l.rate
  {
    if HourFills(l) {
      forall times: seq<real>, keep: seq<bool>, n: nat |
        Nondecreasing(times) && |keep| == |times| && n < |times| && keep[n] && DropsOnlyRefused(l, times, keep)
        ensures KeptDecision(l, times, keep, n)
      {
        HourHides(l, times, keep, n);
      }
    } else {
      KnockShows(l);
    }
  }
}
