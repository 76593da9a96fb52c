// The token bucket that the script keeps per API key, over exact real arithmetic, and the law of what
// it admits.
module TokenBucket {
  import opened Wrappers

  datatype Bucket = Bucket(tokens: real, ts: real)

  datatype Limits = Limits(capacity: int, rate: real)
  {
    predicate Proper() {
      capacity >= 0 && rate >= 0.0
    }
  }

  function Min(a: real, b: real): real {
    if a < b then a else b
  }

  function Elapsed(ts: real, now: real): real {
    if now < ts then 0.0 else now - ts
  }

  function Refill(dt: real, rate: real): real {
    dt * rate
  }

  // The tokens that a check at `now` finds, after the refill. A missing bucket is a full one.
  function Level(l: Limits, b: Option<Bucket>, now: real): real {
    match b
    case None => l.capacity as real
    case Some(b) => Min(l.capacity as real, b.tokens + Refill(Elapsed(b.ts, now), l.rate))
  }

  predicate Allows(l: Limits, b: Option<Bucket>, now: real) {
    Level(l, b, now) >= 1.0
  }

  // What the check writes back: one token less if it was allowed, and always the caller's time.
  function Written(l: Limits, b: Option<Bucket>, now: real): Bucket {
    Bucket(if Allows(l, b, now) then Level(l, b, now) - 1.0 else Level(l, b, now), now)
  }

  // ----- Runs -----

  // The bucket after the first n of a sequence of checks, starting without one.
  function After(l: Limits, times: seq<real>, n: nat): Option<Bucket>
    requires n <= |times|
  {
    if n == 0 then None else Some(Written(l, After(l, times, n - 1), times[n - 1]))
  }

  predicate Admits(l: Limits, times: seq<real>, n: nat)
    requires n < |times|
  {
    Allows(l, After(l, times, n), times[n])
  }

  function Tokens(l: Limits, times: seq<real>, n: nat): real
    requires n < |times|
  {
    Level(l, After(l, times, n), times[n])
  }

  // How many of the checks i, ..., j - 1 are admitted.
  function Admitted(l: Limits, times: seq<real>, i: nat, j: nat): nat
    requires j <= |times|
  {
    if j <= i then 0 else Admitted(l, times, i, j - 1) + (if Admits(l, times, j - 1) then 1 else 0)
  }

  predicate Nondecreasing(times: seq<real>) {
    forall i, j :: 0 <= i <= j < |times| ==> times[i] <= times[j]
  }

  // What the window from check i up to the time of check n has room for.
  function Room(l: Limits, times: seq<real>, i: nat, n: nat): real
    requires i < |times| && n < |times|
  {
    l.capacity as real + Refill(times[n] - times[i], l.rate)
  }

  lemma Distribute(x: real, y: real, r: real)
    ensures Refill(x + y, r) == Refill(x, r) + Refill(y, r)
  {
  }

  lemma Scale(x: real, y: real, r: real)
    requires x <= y && 0.0 <= r
    ensures Refill(x, r) <= Refill(y, r)
  {
  }

  lemma RoomGrows(l: Limits, times: seq<real>, i: nat, n: nat)
    requires i < |times| && n + 1 < |times|
    ensures Room(l, times, i, n + 1) == Room(l, times, i, n) + Refill(times[n + 1] - times[n], l.rate)
  {
    Distribute(times[n] - times[i], times[n + 1] - times[n], l.rate);
  }

  lemma NoRefill(r: real)
    ensures Refill(0.0, r) == 0.0
  {
  }

  lemma NextTokens(l: Limits, times: seq<real>, n: nat)
    requires n + 1 < |times| && Nondecreasing(times)
    ensures Tokens(l, times, n + 1) ==
      Min(l.capacity as real,
          Tokens(l, times, n) - (if Admits(l, times, n) then 1.0 else 0.0) + Refill(times[n + 1] - times[n], l.rate))
  {
    assert times[n] <= times[n + 1];
  }

  // What window i, seen from check n, leaves to admit.
  function Slack(l: Limits, times: seq<real>, i: nat, n: nat): real
    requires i < |times| && n < |times|
  {
    Room(l, times, i, n) - Admitted(l, times, i, n) as real
  }

  lemma SlackStep(l: Limits, times: seq<real>, i: nat, n: nat)
    requires i <= n && n + 1 < |times| && Nondecreasing(times)
    ensures Tokens(l, times, n + 1) ==
      Min(l.capacity as real, Slack(l, times, i, n + 1) + (Tokens(l, times, n) - Slack(l, times, i, n)))
  {
    NextTokens(l, times, n);
    RoomGrows(l, times, i, n);
  }

  lemma OwnSlack(l: Limits, times: seq<real>, n: nat)
    requires n < |times|
    ensures Slack(l, times, n, n) == l.capacity as real
  {
  }

  // Seen from check n, the tokens are the tightest of the windows that end there.
  lemma {:induction false} TokensAreTightestWindow(l: Limits, times: seq<real>, n: nat) returns (tightest: nat)
    requires n < |times| && Nondecreasing(times)
    ensures forall i: nat :: i <= n ==> Tokens(l, times, n) <= Slack(l, times, i, n)
    ensures tightest <= n && Tokens(l, times, n) == Slack(l, times, tightest, n)
  {
    hide Refill;
    tightest := n;
    OwnSlack(l, times, n);
    if n > 0 {
      var before := TokensAreTightestWindow(l, times, n - 1);
      forall i: nat | i <= n ensures Tokens(l, times, n) <= Slack(l, times, i, n) {
        SlackStep(l, times, if i < n then i else before, n - 1);
      }
      SlackStep(l, times, before, n - 1);
      if Tokens(l, times, n) < l.capacity as real {
        tightest := before;
      }
    }
  }

  // The exact law: a check is admitted precisely when no window ending at it would overflow.
  lemma WindowLaw(l: Limits, times: seq<real>, n: nat)
    requires n < |times| && Nondecreasing(times)
    ensures Admits(l, times, n) <==>
      forall i: nat :: i <= n ==> (Admitted(l, times, i, n) + 1) as real <= Room(l, times, i, n)
  {
    var tightest := TokensAreTightestWindow(l, times, n);
    if Admits(l, times, n) {
      forall i: nat | i <= n ensures (Admitted(l, times, i, n) + 1) as real <= Room(l, times, i, n) {
        assert Tokens(l, times, n) <= Slack(l, times, i, n);
      }
    }
  }

  lemma WindowBound(l: Limits, times: seq<real>, i: nat, n: nat)
    requires i <= n < |times| && Nondecreasing(times) && Admits(l, times, n)
    ensures Admitted(l, times, i, n + 1) as real <= Room(l, times, i, n)
  {
    WindowLaw(l, times, n);
    assert (Admitted(l, times, i, n) + 1) as real <= Room(l, times, i, n);
  }

  // ----- Windows of time -----

  function AdmittedDuring(l: Limits, times: seq<real>, n: nat, from: real, to: real): nat
    requires n <= |times|
  {
    if n == 0 then 0
    else AdmittedDuring(l, times, n - 1, from, to)
         + (if from <= times[n - 1] <= to && Admits(l, times, n - 1) then 1 else 0)
  }

  lemma {:induction false} MoreAdmitted(l: Limits, times: seq<real>, i: nat, j: nat, k: nat)
    requires j <= k <= |times|
    ensures Admitted(l, times, i, j) <= Admitted(l, times, i, k)
  {
    if j < k {
      MoreAdmitted(l, times, i, j, k - 1);
    }
  }

  lemma {:induction false} DuringIsBetween(l: Limits, times: seq<real>, n: nat, from: real, to: real)
    returns (i: nat, k: nat)
    requires n <= |times| && AdmittedDuring(l, times, n, from, to) > 0
    ensures i <= k < n && from <= times[i] && times[k] <= to && Admits(l, times, k)
    ensures AdmittedDuring(l, times, n, from, to) <= Admitted(l, times, i, k + 1)
  {
    if AdmittedDuring(l, times, n - 1, from, to) == 0 {
      i, k := n - 1, n - 1;
    } else {
      i, k := DuringIsBetween(l, times, n - 1, from, to);
      if from <= times[n - 1] <= to && Admits(l, times, n - 1) {
        MoreAdmitted(l, times, i, k + 1, n - 1);
        k := n - 1;
      }
    }
  }

  lemma RoomAtMost(l: Limits, times: seq<real>, i: nat, k: nat, from: real, to: real)
    requires l.Proper() && i < |times| && k < |times| && from <= times[i] && times[k] <= to
    ensures Room(l, times, i, k) <= l.capacity as real + Refill(to - from, l.rate)
  {
    hide Refill;
    Scale(times[k] - times[i], to - from, l.rate);
  }

  // Any window of time sees at most a full bucket plus what is refilled during it.
  lemma TimeWindowBound(l: Limits, times: seq<real>, from: real, to: real)
    requires l.Proper() && Nondecreasing(times) && from <= to
    ensures AdmittedDuring(l, times, |times|, from, to) as real <= l.capacity as real + Refill(to - from, l.rate)
  {
    if AdmittedDuring(l, times, |times|, from, to) > 0 {
      var i, k := DuringIsBetween(l, times, |times|, from, to);
      WindowBound(l, times, i, k);
      RoomAtMost(l, times, i, k, from, to);
    } else {
      NoRefill(l.rate);
      Scale(0.0, to - from, l.rate);
    }
  }

  // ----- Greedy is optimal -----

  function Chosen(choice: seq<bool>, i: nat, j: nat): nat
    requires j <= |choice|
  {
    if j <= i then 0 else Chosen(choice, i, j - 1) + (if choice[j - 1] then 1 else 0)
  }

  // Another way of admitting the same checks within the same limits: no window overflows.
  ghost predicate Feasible(l: Limits, times: seq<real>, choice: seq<bool>) {
    && |choice| == |times|
    && forall i: nat, n: nat :: i <= n < |times| && choice[n] ==>
         Chosen(choice, i, n + 1) as real <= Room(l, times, i, n)
  }

  function Decisions(l: Limits, times: seq<real>): (choice: seq<bool>)
    ensures |choice| == |times|
    ensures forall n :: 0 <= n < |times| ==> choice[n] == Admits(l, times, n)
  {
    seq(|times|, n requires 0 <= n < |times| => Admits(l, times, n))
  }

  lemma {:induction false} DecisionsChosen(l: Limits, times: seq<real>, i: nat, j: nat)
    requires j <= |times|
    ensures Chosen(Decisions(l, times), i, j) == Admitted(l, times, i, j)
  {
    if i < j {
      DecisionsChosen(l, times, i, j - 1);
    }
  }

  lemma GreedyIsFeasible(l: Limits, times: seq<real>)
    requires Nondecreasing(times)
    ensures Feasible(l, times, Decisions(l, times))
  {
    forall i: nat, n: nat | i <= n < |times| && Decisions(l, times)[n]
      ensures Chosen(Decisions(l, times), i, n + 1) as real <= Room(l, times, i, n)
    {
      WindowBound(l, times, i, n);
      DecisionsChosen(l, times, i, n + 1);
    }
  }

  lemma {:induction false} ChosenSplit(choice: seq<bool>, i: nat, j: nat)
    requires i <= j <= |choice|
    ensures Chosen(choice, 0, j) == Chosen(choice, 0, i) + Chosen(choice, i, j)
  {
    if i < j {
      ChosenSplit(choice, i, j - 1);
    }
  }

  lemma {:induction false} AdmittedSplit(l: Limits, times: seq<real>, i: nat, j: nat)
    requires i <= j <= |times|
    ensures Admitted(l, times, 0, j) == Admitted(l, times, 0, i) + Admitted(l, times, i, j)
  {
    if i < j {
      AdmittedSplit(l, times, i, j - 1);
    }
  }

  // On every prefix, no feasible policy has admitted more checks than the bucket.
  lemma {:induction false} GreedyIsOptimal(l: Limits, times: seq<real>, choice: seq<bool>, n: nat)
    requires Nondecreasing(times) && Feasible(l, times, choice) && n <= |times|
    ensures Chosen(choice, 0, n) <= Admitted(l, times, 0, n)
  {
    if n > 0 {
      var last := n - 1;
      GreedyIsOptimal(l, times, choice, last);
      if choice[last] && !Admits(l, times, last) {
        WindowLaw(l, times, last);
        var i: nat :| i <= last && (Admitted(l, times, i, last) + 1) as real > Room(l, times, i, last);
        assert Chosen(choice, i, n) as real <= Room(l, times, i, last);
        assert Chosen(choice, i, n) <= Admitted(l, times, i, last);
        GreedyIsOptimal(l, times, choice, i);
        ChosenSplit(choice, i, n);
        AdmittedSplit(l, times, i, last);
      }
    }
  }
}
