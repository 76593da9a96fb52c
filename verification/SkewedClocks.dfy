// What the limiter admits when the clocks of the gateways differ from each other and from the server's. A
// bucket is refilled by the gateways' time, and lives by the server's.
module SkewedClocks {
  import opened Wrappers
  import opened TokenBucket
  import opened BucketLaws
  import opened ExpiringBucket
  import opened RateLimiter

  // Visit n finds the key that visit n - 1 left.
  predicate Alive(visits: seq<Visit>, n: nat)
    requires n < |visits|
  {
    n > 0 && visits[n].serverTime < visits[n - 1].serverTime + EXPIRY
  }

  function Found(l: Limits, visits: seq<Visit>, n: nat): Option<Bucket>
    requires n < |visits|
  {
    Find(KeyAfter(l, visits, n), visits[n].serverTime)
  }

  predicate Grants(l: Limits, visits: seq<Visit>, n: nat)
    requires n < |visits|
  {
    Allows(l, Found(l, visits, n), visits[n].now)
  }

  // How many of the first n visits are admitted.
  function Granted(l: Limits, visits: seq<Visit>, n: nat): nat
    requires n <= |visits|
  {
    if n == 0 then 0 else Granted(l, visits, n - 1) + (if Grants(l, visits, n - 1) then 1 else 0)
  }

  // How many of the first n visits found no key.
  function Births(visits: seq<Visit>, n: nat): nat
    requires n <= |visits|
  {
    if n == 0 then 0 else Births(visits, n - 1) + (if Alive(visits, n - 1) then 0 else 1)
  }

  // The sum of the forward jumps of the gateways' time that a living key saw.
  function ForwardJumps(visits: seq<Visit>, n: nat): real
    requires n <= |visits|
  {
    if n == 0 then 0.0
    else ForwardJumps(visits, n - 1)
         + (if Alive(visits, n - 1) && visits[n - 2].now < visits[n - 1].now
            then visits[n - 1].now - visits[n - 2].now else 0.0)
  }

  function Tokens(l: Limits, visits: seq<Visit>, n: nat): real
    requires n <= |visits|
  {
    if n == 0 then 0.0 else KeyAfter(l, visits, n).value.bucket.tokens
  }

  // What visit n discards: refill that a full bucket has no room for, or tokens of a key that was dropped.
  function Discards(l: Limits, visits: seq<Visit>, n: nat): real
    requires n < |visits|
  {
    if Alive(visits, n)
    then Tokens(l, visits, n) + Refill(Elapsed(visits[n - 1].now, visits[n].now), l.rate)
         - Level(l, Found(l, visits, n), visits[n].now)
    else Tokens(l, visits, n)
  }

  function Discarded(l: Limits, visits: seq<Visit>, n: nat): real
    requires n <= |visits|
  {
    if n == 0 then 0.0 else Discarded(l, visits, n - 1) + Discards(l, visits, n - 1)
  }

  lemma FoundIs(l: Limits, visits: seq<Visit>, n: nat)
    requires n < |visits|
    ensures Found(l, visits, n) == if Alive(visits, n) then Some(KeyAfter(l, visits, n).value.bucket) else None
    ensures n > 0 ==> KeyAfter(l, visits, n).value.bucket.ts == visits[n - 1].now
  {
  }

  // What one visit gives, leaves and discards is what it found, was born with, or was refilled.
  lemma VisitConserves(l: Limits, visits: seq<Visit>, n: nat)
    requires l.Proper() && n < |visits| && 0.0 <= Tokens(l, visits, n) <= l.capacity as real
    ensures 0.0 <= Tokens(l, visits, n + 1) <= l.capacity as real && Discards(l, visits, n) >= 0.0
    ensures (if Grants(l, visits, n) then 1.0 else 0.0) + Tokens(l, visits, n + 1) + Discards(l, visits, n) ==
      Tokens(l, visits, n)
      + if Alive(visits, n) then Refill(Elapsed(visits[n - 1].now, visits[n].now), l.rate) else l.capacity as real
  {
    FoundIs(l, visits, n);
    if Alive(visits, n) {
      var b := KeyAfter(l, visits, n).value.bucket;
      CheckConserves(l, b, visits[n].now, Refill(Elapsed(b.ts, visits[n].now), l.rate));
    }
  }

  lemma OneMoreBirth(n: nat, c: int)
    ensures ((n + 1) * c) as real == (n * c) as real + c as real
  {
    assert (n + 1) * c == n * c + c;
  }

  // For arbitrary times of gateways and server, tokens are conserved: what was admitted, is left and was
  // discarded makes up a full bucket for each birth and the refill of the forward jumps.
  lemma {:induction false} TokensAreAccounted(l: Limits, visits: seq<Visit>, n: nat)
    requires l.Proper() && n <= |visits|
    ensures 0.0 <= Tokens(l, visits, n) <= l.capacity as real && Discarded(l, visits, n) >= 0.0
    ensures Granted(l, visits, n) as real + Tokens(l, visits, n) + Discarded(l, visits, n)
            == (Births(visits, n) * l.capacity) as real + Refill(ForwardJumps(visits, n), l.rate)
  {
    hide Refill, Tokens, Discards, Grants;
    NoRefill(l.rate);
    if n == 0 {
      NoTokensYet(l, visits);
    } else {
      TokensAreAccounted(l, visits, n - 1);
      VisitConserves(l, visits, n - 1);
      OneMoreBirth(Births(visits, n - 1), l.capacity);
      Distribute(ForwardJumps(visits, n - 1),
                 if Alive(visits, n - 1) then Elapsed(visits[n - 2].now, visits[n - 1].now) else 0.0, l.rate);
    }
  }

  lemma NoTokensYet(l: Limits, visits: seq<Visit>)
    ensures Tokens(l, visits, 0) == 0.0
  {
  }

  // So admissions under skewed clocks are at most a full bucket per birth and the refill of the jumps.
  lemma GrantsAreBounded(l: Limits, visits: seq<Visit>, n: nat)
    requires l.Proper() && n <= |visits|
    ensures Granted(l, visits, n) as real
            <= (Births(visits, n) * l.capacity) as real + Refill(ForwardJumps(visits, n), l.rate)
  {
    hide Refill;
    TokensAreAccounted(l, visits, n);
  }

  // In no run are more admitted than one full bucket and the refill of the jumps.
  ghost predicate OneBucketSuffices(l: Limits) {
    forall visits: seq<Visit> :: WithinOneBucket(l, visits)
  }

  predicate WithinOneBucket(l: Limits, visits: seq<Visit>) {
    Granted(l, visits, |visits|) as real <= l.capacity as real + Refill(ForwardJumps(visits, |visits|), l.rate)
  }

  // A gateway whose clock stands still, an hour of server time between its checks.
  function Stopped(size: nat): (visits: seq<Visit>)
    ensures |visits| == size
    ensures forall i :: 0 <= i < size ==> visits[i] == Visit(0.0, i as real * EXPIRY)
  {
    seq(size, i => Visit(0.0, i as real * EXPIRY))
  }

  lemma {:induction false} StoppedGrants(l: Limits, size: nat, n: nat)
    requires l.capacity >= 1 && n <= size
    ensures Granted(l, Stopped(size), n) == n && ForwardJumps(Stopped(size), n) == 0.0
  {
    if n > 0 {
      StoppedGrants(l, size, n - 1);
      FoundIs(l, Stopped(size), n - 1);
    }
  }

  // That is so only of a bucket that admits nothing: keys that are dropped refill it without any jump.
  lemma OneBucketSufficesIff(l: Limits)
    requires l.Proper()
    ensures OneBucketSuffices(l) <==> l.capacity == 0
  {
    if l.capacity == 0 {
      forall visits: seq<Visit> ensures WithinOneBucket(l, visits) {
        hide Refill;
        GrantsAreBounded(l, visits, |visits|);
      }
    } else {
      var visits := Stopped(l.capacity + 1);
      StoppedGrants(l, l.capacity + 1, l.capacity + 1);
      NoRefill(l.rate);
      assert !WithinOneBucket(l, visits);
    }
  }
}
