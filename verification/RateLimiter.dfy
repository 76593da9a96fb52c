// The rate limiter in front of the buckets: one bucket per identity, shared by all gateways. A gateway
// supplies its own clock's time; the server drops a key when its own clock says so.
module RateLimiter {
  import opened Wrappers
  import opened TokenBucket
  import opened ExpiringBucket
  import opened RetryHint

  datatype RateLimitResult = RateLimitResult(allowed: bool, remaining: int, limit: int, retryAfter: int)

  // A bucket as the server keeps it, with the time at which it will be dropped.
  datatype Key = Key(bucket: Bucket, deadline: real)

  // One call of the script: the gateway's time and the server's.
  datatype Visit = Visit(now: real, serverTime: real)

  // The bucket that the script finds.
  function Find(key: Option<Key>, serverTime: real): Option<Bucket> {
    if key.Some? && serverTime < key.value.deadline then Some(key.value.bucket) else None
  }

  function Lookup(keys: map<string, Key>, name: string): Option<Key> {
    if name in keys then Some(keys[name]) else None
  }

  // The key that one call leaves.
  function Visited(l: Limits, key: Option<Key>, v: Visit): Key {
    Key(Written(l, Find(key, v.serverTime), v.now), v.serverTime + EXPIRY)
  }

  // What becomes of a call: an answer, no contact with the server, or a lost answer to a script that ran.
  datatype Contact = Answered | Unreachable | AnswerLost

  class Limiter {
    const limits: Limits
    var keys: map<string, Key>

    constructor (capacity: int, rate: real)
      ensures limits == Limits(capacity, rate) && keys == map[]
    {
      limits, keys := Limits(capacity, rate), map[];
    }

    // The script, as one atomic step.
    method RunScript(name: string, v: Visit) returns (allowed: bool, remaining: int)
      modifies this
      ensures allowed <==> Allows(limits, Find(old(Lookup(keys, name)), v.serverTime), v.now)
      ensures keys == old(keys)[name := Visited(limits, old(Lookup(keys, name)), v)]
      ensures remaining == keys[name].bucket.tokens.Floor
    {
      var tokens, ts;
      if name in keys && v.serverTime < keys[name].deadline {
        tokens, ts := keys[name].bucket.tokens, keys[name].bucket.ts;
      } else {
        tokens, ts := limits.capacity as real, v.now;
      }
      var elapsed := v.now - ts;
      if elapsed < 0.0 {
        elapsed := 0.0;
      }
      NoRefill(limits.rate);
      hide Refill;
      tokens := Min(limits.capacity as real, tokens + Refill(elapsed, limits.rate));
      allowed := false;
      if tokens >= 1.0 {
        tokens := tokens - 1.0;
        allowed := true;
      }
      keys := keys[name := Key(Bucket(tokens, v.now), v.serverTime + EXPIRY)];
      remaining := tokens.Floor;
    }

    // Consumes one token of the identity. Fails open: without an answer everything is allowed, even when
    // the script ran and the token is gone.
    method Check(identity: string, v: Visit, contact: Contact) returns (r: RateLimitResult)
      modifies this
      ensures r.limit == limits.capacity
      ensures r.allowed <==>
                !contact.Answered? || Allows(limits, Find(old(Lookup(keys, identity)), v.serverTime), v.now)
      ensures keys == if contact.Unreachable? then old(keys)
                      else old(keys)[identity := Visited(limits, old(Lookup(keys, identity)), v)]
      ensures r.remaining == if contact.Answered? then keys[identity].bucket.tokens.Floor else limits.capacity
      ensures r.retryAfter == if r.allowed then 0 else RetryAfter(limits.rate)
    {
      if contact.Unreachable? {
        return RateLimitResult(true, limits.capacity, limits.capacity, 0);
      }
      var allowed, remaining := RunScript(identity, v);
      if contact.AnswerLost? {
        return RateLimitResult(true, limits.capacity, limits.capacity, 0);
      }
      return RateLimitResult(allowed, remaining, limits.capacity, if allowed then 0 else RetryAfter(limits.rate));
    }
  }

  // ----- Many identities -----

  datatype Request = Request(identity: string, visit: Visit)

  function KeysAfter(l: Limits, requests: seq<Request>): map<string, Key> {
    if requests == [] then map[]
    else
      var n := |requests| - 1;
      var before := KeysAfter(l, requests[..n]);
      before[requests[n].identity := Visited(l, Lookup(before, requests[n].identity), requests[n].visit)]
  }

  // The visits of one identity.
  function VisitsOf(requests: seq<Request>, name: string): seq<Visit> {
    if requests == [] then []
    else
      var n := |requests| - 1;
      VisitsOf(requests[..n], name) + (if requests[n].identity == name then [requests[n].visit] else [])
  }

  // The key after the first n of the visits of one identity that has the limiter to itself.
  function KeyAfter(l: Limits, visits: seq<Visit>, n: nat): Option<Key>
    requires n <= |visits|
  {
    if n == 0 then None else Some(Visited(l, KeyAfter(l, visits, n - 1), visits[n - 1]))
  }

  lemma {:induction false} KeyAfterPrefix(l: Limits, visits: seq<Visit>, v: Visit, n: nat)
    requires n <= |visits|
    ensures KeyAfter(l, visits + [v], n) == KeyAfter(l, visits, n)
  {
    if n > 0 {
      KeyAfterPrefix(l, visits, v, n - 1);
    }
  }

  // However the requests of many identities interleave, each key is what its own requests alone would
  // have left: one caller cannot use up another's allowance.
  lemma {:induction false} IdentitiesAreIsolated(l: Limits, requests: seq<Request>, name: string)
    ensures var visits := VisitsOf(requests, name);
      Lookup(KeysAfter(l, requests), name) == KeyAfter(l, visits, |visits|)
  {
    if requests != [] {
      var n := |requests| - 1;
      IdentitiesAreIsolated(l, requests[..n], name);
      var before := VisitsOf(requests[..n], name);
      if requests[n].identity == name {
        KeyAfterPrefix(l, before, requests[n].visit, |before|);
      } else {
        assert VisitsOf(requests, name) == before;
      }
    }
  }

  // ----- Clocks that agree -----

  function TimesOf(visits: seq<Visit>): (times: seq<real>)
    ensures |times| == |visits| && forall i :: 0 <= i < |visits| ==> times[i] == visits[i].now
  {
    seq(|visits|, i requires 0 <= i < |visits| => visits[i].now)
  }

  predicate Synchronous(v: Visit) {
    v.serverTime == v.now
  }

  predicate OneClock(visits: seq<Visit>) {
    forall i :: 0 <= i < |visits| ==> Synchronous(visits[i])
  }

  // With agreeing clocks, the script with its expiry makes the decisions that BucketLaws compares with
  // those of a bucket that never expires.
  lemma {:induction false} AgreeingClocks(l: Limits, visits: seq<Visit>, n: nat)
    requires n <= |visits| && OneClock(visits)
    ensures KeyAfter(l, visits, n).Some? <==> n > 0
    ensures n > 0 ==>
      KeyAfter(l, visits, n) == Some(Key(AfterExpiring(l, TimesOf(visits), n).value, visits[n - 1].now + EXPIRY))
    ensures n < |visits| ==>
      (Allows(l, Find(KeyAfter(l, visits, n), visits[n].serverTime), visits[n].now)
       <==> AdmitsExpiring(l, TimesOf(visits), n))
  {
    if n > 0 {
      AgreeingClocks(l, visits, n - 1);
    }
  }

  // So, when an hour's refill is a full bucket, the whole limiter decides, for every identity and every
  // interleaving, as if keys were never dropped.
  lemma LimiterNeverForgets(l: Limits, requests: seq<Request>, request: Request)
    requires l.rate >= 0.0 && HourFills(l)
    requires (forall i :: 0 <= i < |requests| ==> Synchronous(requests[i].visit)) && Synchronous(request.visit)
    requires Nondecreasing(TimesOf(VisitsOf(requests, request.identity) + [request.visit]))
    ensures var visits := VisitsOf(requests, request.identity) + [request.visit];
      Allows(l, Find(Lookup(KeysAfter(l, requests), request.identity), request.visit.serverTime), request.visit.now)
      <==> Admits(l, TimesOf(visits), |visits| - 1)
  {
    var before := VisitsOf(requests, request.identity);
    var visits := before + [request.visit];
    IdentitiesAreIsolated(l, requests, request.identity);
    VisitsAgree(requests, request.identity);
    KeyAfterPrefix(l, before, request.visit, |before|);
    AgreeingClocks(l, visits, |before|);
    ExpiryUnobservableIff(l);
  }

  lemma {:induction false} VisitsAgree(requests: seq<Request>, name: string)
    requires forall i :: 0 <= i < |requests| ==> Synchronous(requests[i].visit)
    ensures OneClock(VisitsOf(requests, name))
  {
    if requests != [] {
      var n := |requests| - 1;
      VisitsAgree(requests[..n], name);
      assert Synchronous(requests[n].visit);
    }
  }
}
