/** The token bucket of gateway/ratelimit: the Lua script as a step on one
    bucket, and what it promises over whole traces of calls. Time is a real
    number of seconds, as passed in by the calling replica. */
module TokenBucket {

  datatype RawLimits = RawLimits(capacity: real, rate: real)

  /** The script's ARGV[1] and ARGV[2]: the most tokens the bucket holds, and
      the tokens it regains per second. */
  type Limits = l: RawLimits | l.capacity > 0.0 && l.rate > 0.0
    witness RawLimits(10.0, 1.0)

  datatype RawPolicy = RawPolicy(requestsPerMinute: nat, burst: nat)

  /** RateLimitPolicy: both fields are declared greater than zero. */
  type Policy = p: RawPolicy | p.requestsPerMinute > 0 && p.burst > 0
    witness RawPolicy(60, 10)

  /** check_and_consume's arguments to the script. */
  function LimitsOf(q: Policy): Limits {
    RawLimits(q.burst as real, q.requestsPerMinute as real / 60.0)
  }

  /** The hash behind a bucket key: absent, or both fields written. */
  datatype Bucket = Missing | Stored(tokens: real, lastRefill: real)

  type Amount = x: real | x >= 0.0

  datatype Call = Call(now: real, cost: Amount)

  datatype Reply = Reply(allowed: bool, tokens: real, retryAfterMs: int)

  function Min(a: real, b: real): real {
    if a <= b then a else b
  }

  function Max(a: real, b: real): real {
    if a >= b then a else b
  }

  function Ceil(x: real): int {
    -((-x).Floor)
  }

  /** What a call at `now` finds in the bucket, after the lazy refill. */
  function Level(p: Limits, b: Bucket, now: real): real {
    match b
    case Missing => p.capacity
    case Stored(tokens, last) =>
      Min(p.capacity, tokens + Max(0.0, now - last) * p.rate)
  }

  /** The milliseconds the script tells a rejected caller to wait. */
  function RetryAfterMs(p: Limits, level: real, cost: Amount): int {
    Ceil((cost - level) / p.rate * 1000.0)
  }

  /** One evaluation of the script. */
  function Eval(p: Limits, b: Bucket, c: Call): (Bucket, Reply) {
    var level := Level(p, b, c.now);
    if level >= c.cost then
      (Stored(level - c.cost, c.now), Reply(true, level - c.cost, 0))
    else
      (Stored(level, c.now), Reply(false, level, RetryAfterMs(p, level, c.cost)))
  }

  function After(p: Limits, b: Bucket, calls: seq<Call>): Bucket
    decreases calls
  {
    if calls == [] then b else After(p, Eval(p, b, calls[0]).0, calls[1..])
  }

  function Run(p: Limits, b: Bucket, calls: seq<Call>): (rs: seq<Reply>)
    ensures |rs| == |calls|
    decreases calls
  {
    if calls == [] then []
    else
      var (b', r) := Eval(p, b, calls[0]);
      [r] + Run(p, b', calls[1..])
  }

  lemma {:induction false} RunSplits(p: Limits, b: Bucket, xs: seq<Call>, ys: seq<Call>)
    ensures Run(p, b, xs + ys) == Run(p, b, xs) + Run(p, After(p, b, xs), ys)
    ensures After(p, b, xs + ys) == After(p, After(p, b, xs), ys)
    decreases xs
  {
    if xs == [] {
      assert xs + ys == ys;
    } else {
      assert (xs + ys)[1..] == xs[1..] + ys;
      RunSplits(p, Eval(p, b, xs[0]).0, xs[1..], ys);
    }
  }

  // ------------------------------------------------------------- rate bound

  ghost predicate InRange(p: Limits, b: Bucket) {
    b.Stored? ==> 0.0 <= b.tokens <= p.capacity
  }

  /** Total cost let through, read off the replies. */
  function Admitted(calls: seq<Call>, replies: seq<Reply>): real
    requires |calls| == |replies|
  {
    if calls == [] then 0.0
    else Taken(calls[0], replies[0]) + Admitted(calls[1..], replies[1..])
  }

  /** How far the clock moved forward in total since `from`; a step back
      counts nothing, but the way forward again counts in full. */
  function Forward(from: real, calls: seq<Call>): (f: real)
    ensures f >= 0.0
    decreases calls
  {
    if calls == [] then 0.0
    else Max(0.0, calls[0].now - from) + Forward(calls[0].now, calls[1..])
  }

  ghost predicate Monotone(from: real, calls: seq<Call>)
    decreases calls
  {
    calls == [] || (from <= calls[0].now && Monotone(calls[0].now, calls[1..]))
  }

  /** A whole trace in time order, with no constraint on its start. */
  ghost predicate InOrder(calls: seq<Call>) {
    calls == [] || Monotone(calls[0].now, calls)
  }

  lemma {:induction false} ForwardOfMonotone(from: real, calls: seq<Call>)
    requires Monotone(from, calls) && calls != []
    ensures Forward(from, calls) == calls[|calls| - 1].now - from
    decreases calls
  {
    if |calls| > 1 {
      ForwardOfMonotone(calls[0].now, calls[1..]);
    }
  }

  lemma ForwardInOrder(calls: seq<Call>)
    requires InOrder(calls) && calls != []
    ensures Forward(calls[0].now, calls[1..]) == calls[|calls| - 1].now - calls[0].now
  {
    if |calls| > 1 {
      ForwardOfMonotone(calls[0].now, calls[1..]);
    }
  }

  lemma EvalInRange(p: Limits, b: Bucket, c: Call)
    requires InRange(p, b)
    ensures InRange(p, Eval(p, b, c).0)
    ensures 0.0 <= Level(p, b, c.now) <= p.capacity
  {
    if b.Stored? {
      var elapsed := Max(0.0, c.now - b.lastRefill);
      Product(elapsed, p.rate);
    }
  }

  lemma Product(x: real, y: real)
    requires x >= 0.0 && y >= 0.0
    ensures x * y >= 0.0
  {
  }

  /** Tokens stay between zero and the burst on every trace, clocks that step
      back included. */
  lemma {:induction false} TokensInRange(p: Limits, b: Bucket, calls: seq<Call>)
    requires InRange(p, b)
    ensures InRange(p, After(p, b, calls))
    ensures forall k | 0 <= k < |calls| :: 0.0 <= Run(p, b, calls)[k].tokens <= p.capacity
    decreases calls
  {
    if calls != [] {
      EvalInRange(p, b, calls[0]);
      TokensInRange(p, Eval(p, b, calls[0]).0, calls[1..]);
    }
  }

  /** What the clock earns the bucket over a trace, call by call. */
  function Earned(p: Limits, from: real, calls: seq<Call>): real
    decreases calls
  {
    if calls == [] then 0.0
    else Gain(p, from, calls[0].now) + Earned(p, calls[0].now, calls[1..])
  }

  lemma {:induction false} EarnedIsRateTimesForward(p: Limits, from: real, calls: seq<Call>)
    ensures Earned(p, from, calls) == p.rate * Forward(from, calls)
    decreases calls
  {
    if calls != [] {
      EarnedIsRateTimesForward(p, calls[0].now, calls[1..]);
      Distribute(p.rate, Max(0.0, calls[0].now - from), Forward(calls[0].now, calls[1..]));
    }
  }

  lemma Distribute(r: real, x: real, y: real)
    ensures r * (x + y) == x * r + r * y
  {
  }

  /** The cost a single call takes out. */
  function Taken(c: Call, r: Reply): real {
    if r.allowed then c.cost else 0.0
  }

  lemma EvalConserves(p: Limits, b: Bucket, c: Call)
    requires InRange(p, b) && b.Stored?
    ensures var (b1, r) := Eval(p, b, c);
            b1.Stored? && b1.lastRefill == c.now && InRange(p, b1) &&
            Taken(c, r) + Holds(b1) <= Holds(b) + Gain(p, b.lastRefill, c.now)
  {
    EvalInRange(p, b, c);
  }

  /** The tokens a bucket's hash holds. */
  function Holds(b: Bucket): real {
    if b.Stored? then b.tokens else 0.0
  }

  /** What a refill at `now` adds at most. */
  function Gain(p: Limits, from: real, now: real): real {
    Max(0.0, now - from) * p.rate
  }

  /** Tokens are conserved: what was let through plus what is left never
      exceeds what was there plus what the clock earned. */
  lemma {:induction false} Conservation(p: Limits, b: Bucket, calls: seq<Call>)
    requires InRange(p, b) && b.Stored?
    ensures Admitted(calls, Run(p, b, calls)) + Holds(After(p, b, calls))
              <= Holds(b) + Earned(p, b.lastRefill, calls)
    decreases calls
  {
    if calls != [] {
      EvalConserves(p, b, calls[0]);
      var b1 := Eval(p, b, calls[0]).0;
      Conservation(p, b1, calls[1..]);
      ConservationStep(p, b, calls, b1, Admitted(calls[1..], Run(p, b1, calls[1..])), Holds(After(p, b1, calls[1..])));
    }
  }

  lemma ConservationStep(p: Limits, b: Bucket, calls: seq<Call>, b1: Bucket, admitted: real, left: real)
    requires InRange(p, b) && b.Stored? && calls != [] && b1 == Eval(p, b, calls[0]).0
    requires admitted == Admitted(calls[1..], Run(p, b1, calls[1..])) && left == Holds(After(p, b1, calls[1..]))
    requires admitted + left <= Holds(b1) + Earned(p, calls[0].now, calls[1..])
    ensures Admitted(calls, Run(p, b, calls)) + left <= Holds(b) + Earned(p, b.lastRefill, calls)
  {
    AdmittedCons(p, b, calls);
    EvalConserves(p, b, calls[0]);
    AddUp(Taken(calls[0], Eval(p, b, calls[0]).1), Holds(b1), Holds(b), Gain(p, b.lastRefill, calls[0].now),
          admitted, left, Earned(p, calls[0].now, calls[1..]));
  }

  lemma AddUp(taken: real, after: real, before: real, gain: real, rest: real, left: real, later: real)
    requires taken + after <= before + gain && rest + left <= after + later
    ensures taken + rest + left <= before + (gain + later)
  {
  }

  lemma AdmittedCons(p: Limits, b: Bucket, calls: seq<Call>)
    requires calls != []
    ensures var (b1, r) := Eval(p, b, calls[0]);
            Admitted(calls, Run(p, b, calls))
            == Taken(calls[0], r) + Admitted(calls[1..], Run(p, b1, calls[1..]))
  {
    var (b1, r) := Eval(p, b, calls[0]);
    var full := Run(p, b, calls);
    assert full[0] == r && full[1..] == Run(p, b1, calls[1..]);
  }

  /** The replies a window of a longer trace gets. */
  lemma WindowReplies(p: Limits, b: Bucket, before: seq<Call>, window: seq<Call>, after: seq<Call>)
    ensures Run(p, b, before + window + after)[|before|..|before| + |window|]
            == Run(p, After(p, b, before), window)
  {
    RunSplits(p, b, before + window, after);
    RunSplits(p, b, before, window);
    SliceOfThree(Run(p, b, before), Run(p, After(p, b, before), window), Run(p, After(p, b, before + window), after));
  }

  lemma SliceOfThree<T>(x: seq<T>, y: seq<T>, z: seq<T>)
    ensures (x + y + z)[|x|..|x| + |y|] == y
  {
  }

  lemma WindowBound(p: Limits, b: Bucket, window: seq<Call>)
    requires InRange(p, b) && window != []
    ensures Admitted(window, Run(p, b, window))
              <= p.capacity + Earned(p, window[0].now, window[1..])
  {
    EvalInRange(p, b, window[0]);
    AdmittedCons(p, b, window);
    Conservation(p, Eval(p, b, window[0]).0, window[1..]);
    TokensInRange(p, b, window);
  }

  /** A full bucket and what a stretch of clock earns on top. */
  function Allowance(p: Limits, seconds: real): real {
    p.capacity + p.rate * seconds
  }

  lemma WindowAllowance(p: Limits, b: Bucket, window: seq<Call>)
    requires InRange(p, b) && window != []
    ensures Admitted(window, Run(p, b, window)) <= Allowance(p, Forward(window[0].now, window[1..]))
  {
    WindowBound(p, b, window);
    EarnedAllowance(p, window[0].now, window[1..]);
  }

  lemma EarnedAllowance(p: Limits, from: real, calls: seq<Call>)
    ensures p.capacity + Earned(p, from, calls) == Allowance(p, Forward(from, calls))
  {
    EarnedIsRateTimesForward(p, from, calls);
  }

  /** Rate bound: in any contiguous run of calls of any trace, from whatever
      the key held before, at most burst + rate x (forward clock movement
      inside the run) is let through. */
  lemma RateBound(p: Limits, b: Bucket, before: seq<Call>, window: seq<Call>, after: seq<Call>)
    requires InRange(p, b) && window != []
    ensures Admitted(window, Run(p, b, before + window + after)[|before|..|before| + |window|])
              <= Allowance(p, Forward(window[0].now, window[1..]))
  {
    WindowReplies(p, b, before, window, after);
    TokensInRange(p, b, before);
    WindowAllowance(p, After(p, b, before), window);
  }

  /** With clocks that never step back, that movement is the time from the
      window's first call to its last. */
  lemma RateBoundMonotone(p: Limits, b: Bucket, before: seq<Call>, window: seq<Call>, after: seq<Call>)
    requires InRange(p, b) && window != [] && InOrder(window)
    ensures Admitted(window, Run(p, b, before + window + after)[|before|..|before| + |window|])
              <= Allowance(p, window[|window| - 1].now - window[0].now)
  {
    ForwardInOrder(window);
    RateBound(p, b, before, window, after);
  }

  // -------------------------------------------------- rejected calls are free

  /** Two buckets no later call can tell apart. */
  ghost predicate Alike(p: Limits, a: Bucket, b: Bucket, from: real) {
    forall u: real | u >= from :: Level(p, a, u) == Level(p, b, u)
  }

  ghost predicate NotAfter(b: Bucket, t: real) {
    b.Stored? ==> b.lastRefill <= t
  }

  /** Refilling in two steps is refilling in one. */
  lemma RefillComposes(p: Limits, b: Bucket, now: real, u: real)
    requires InRange(p, b) && NotAfter(b, now) && now <= u
    ensures Level(p, Stored(Level(p, b, now), now), u) == Level(p, b, u)
  {
    Product(u - now, p.rate);
    if b.Stored? {
      Product(now - b.lastRefill, p.rate);
      assert (u - b.lastRefill) * p.rate == (u - now) * p.rate + (now - b.lastRefill) * p.rate;
    }
  }

  /** A rejected call leaves a bucket no later call can tell from the old one. */
  lemma RejectionInvisible(p: Limits, b: Bucket, c: Call)
    requires InRange(p, b) && NotAfter(b, c.now) && !Eval(p, b, c).1.allowed
    ensures Alike(p, Eval(p, b, c).0, b, c.now)
  {
    forall u: real | u >= c.now
      ensures Level(p, Eval(p, b, c).0, u) == Level(p, b, u)
    {
      RefillComposes(p, b, c.now, u);
    }
  }

  function Select<T>(xs: seq<T>, keep: seq<bool>): seq<T>
    requires |xs| == |keep|
  {
    if xs == [] then []
    else (if keep[0] then [xs[0]] else []) + Select(xs[1..], keep[1..])
  }

  lemma {:induction false} FreeForAlike(p: Limits, a: Bucket, b: Bucket, from: real,
      calls: seq<Call>, keep: seq<bool>)
    requires InRange(p, a) && InRange(p, b) && NotAfter(a, from) && NotAfter(b, from)
    requires Alike(p, a, b, from) && Monotone(from, calls) && |keep| == |calls|
    requires forall k | 0 <= k < |calls| :: Run(p, a, calls)[k].allowed ==> keep[k]
    ensures Run(p, b, Select(calls, keep)) == Select(Run(p, a, calls), keep)
    decreases calls
  {
    if calls != [] {
      var c := calls[0];
      var (a1, r) := Eval(p, a, c);
      var full := Run(p, a, calls);
      assert full == [r] + Run(p, a1, calls[1..]);
      assert full[1..] == Run(p, a1, calls[1..]);
      forall k | 0 <= k < |calls[1..]|
        ensures full[1..][k].allowed ==> keep[1..][k]
      {
        assert full[k + 1].allowed ==> keep[k + 1];
      }
      EvalInRange(p, a, c);
      if keep[0] {
        assert Level(p, a, c.now) == Level(p, b, c.now);
        assert Eval(p, b, c) == (a1, r);
        FreeForAlike(p, a1, a1, c.now, calls[1..], keep[1..]);
        var kept := Select(calls, keep);
        assert kept[0] == c && kept[1..] == Select(calls[1..], keep[1..]);
      } else {
        assert !full[0].allowed;
        RejectionInvisible(p, a, c);
        assert Alike(p, a1, b, c.now) by {
          forall u: real | u >= c.now
            ensures Level(p, a1, u) == Level(p, b, u)
          {
            assert Level(p, a, u) == Level(p, b, u);
          }
        }
        FreeForAlike(p, a1, b, c.now, calls[1..], keep[1..]);
        assert Select(calls, keep) == Select(calls[1..], keep[1..]);
        assert Select(full, keep) == Select(full[1..], keep[1..]);
      }
    }
  }

  /** Rejected calls are free: on a trace in time order, leaving out any set of
      rejected calls changes no other call's decision, remaining tokens or
      retry hint. */
  lemma {:induction false} RejectedCallsAreFree(p: Limits, b: Bucket, from: real, calls: seq<Call>, keep: seq<bool>)
    requires InRange(p, b) && NotAfter(b, from) && Monotone(from, calls) && |keep| == |calls|
    requires forall k | 0 <= k < |calls| :: Run(p, b, calls)[k].allowed ==> keep[k]
    ensures Run(p, b, Select(calls, keep)) == Select(Run(p, b, calls), keep)
  {
    FreeForAlike(p, b, b, from, calls, keep);
  }

  // ------------------------------------------------------------- key expiry

  const EXPIRY_SECONDS := 3600.0

  /** EXPIRE key 3600 after every call: a bucket idle that long is gone. */
  function Surviving(b: Bucket, now: real): Bucket {
    if b.Stored? && now - b.lastRefill >= EXPIRY_SECONDS then Missing else b
  }

  function AfterExpiring(p: Limits, b: Bucket, calls: seq<Call>): Bucket
    decreases calls
  {
    if calls == [] then b
    else AfterExpiring(p, Eval(p, Surviving(b, calls[0].now), calls[0]).0, calls[1..])
  }

  function RunExpiring(p: Limits, b: Bucket, calls: seq<Call>): (rs: seq<Reply>)
    ensures |rs| == |calls|
    decreases calls
  {
    if calls == [] then []
    else
      var (b', r) := Eval(p, Surviving(b, calls[0].now), calls[0]);
      [r] + RunExpiring(p, b', calls[1..])
  }

  /** An hour's refill fills a small enough bucket, so losing it is no loss. */
  lemma SurvivingLevel(p: Limits, b: Bucket, now: real)
    requires p.capacity <= EXPIRY_SECONDS * p.rate && InRange(p, b)
    ensures Level(p, Surviving(b, now), now) == Level(p, b, now)
  {
    if Surviving(b, now) != b {
      var idle := now - b.lastRefill;
      Product(idle - EXPIRY_SECONDS, p.rate);
      assert idle * p.rate == (idle - EXPIRY_SECONDS) * p.rate + EXPIRY_SECONDS * p.rate;
    }
  }

  lemma {:induction false} SmallBurstHidesExpiry(p: Limits, b: Bucket, calls: seq<Call>)
    requires p.capacity <= EXPIRY_SECONDS * p.rate && InRange(p, b)
    ensures RunExpiring(p, b, calls) == Run(p, b, calls)
    decreases calls
  {
    if calls != [] {
      SurvivingLevel(p, b, calls[0].now);
      EvalInRange(p, b, calls[0]);
      SmallBurstHidesExpiry(p, Eval(p, b, calls[0]).0, calls[1..]);
    }
  }

  /** A policy whose burst is more than an hour's refill. */
  type LargeBurst = q: Policy | q.burst > 60 * q.requestsPerMinute
    witness RawPolicy(1, 61)

  /** n single-token calls at one instant. */
  function Volley(t: real, n: nat): (v: seq<Call>)
    ensures |v| == n
  {
    if n == 0 then [] else [Call(t, 1.0)] + Volley(t, n - 1)
  }

  /** A volley's last call gets through exactly when the bucket holds enough
      for all of it. */
  lemma {:induction false} VolleyDrains(p: Limits, b: Bucket, t: real, n: nat)
    requires n > 0 && InRange(p, b)
    ensures Run(p, b, Volley(t, n))[n - 1].allowed <==> Level(p, b, t) >= n as real
    ensures Level(p, b, t) >= n as real ==>
              After(p, b, Volley(t, n)) == Stored(Level(p, b, t) - n as real, t)
    decreases n
  {
    var (b1, r) := Eval(p, b, Call(t, 1.0));
    EvalInRange(p, b, Call(t, 1.0));
    assert Volley(t, n)[0] == Call(t, 1.0) && Volley(t, n)[1..] == Volley(t, n - 1);
    assert Run(p, b, Volley(t, n)) == [r] + Run(p, b1, Volley(t, n - 1));
    if n > 1 {
      VolleyDrains(p, b1, t, n - 1);
      assert Run(p, b, Volley(t, n))[n - 1] == Run(p, b1, Volley(t, n - 1))[n - 2];
      assert Level(p, b1, t) == b1.tokens;
    } else {
      assert Volley(t, 0) == [];
    }
  }

  /** Inside a volley nothing has time to expire. */
  lemma {:induction false} VolleyKeeps(p: Limits, b: Bucket, t: real, n: nat)
    requires Surviving(b, t) == b
    ensures RunExpiring(p, b, Volley(t, n)) == Run(p, b, Volley(t, n))
    ensures AfterExpiring(p, b, Volley(t, n)) == After(p, b, Volley(t, n))
    decreases n
  {
    if n > 0 {
      assert Volley(t, n)[0] == Call(t, 1.0) && Volley(t, n)[1..] == Volley(t, n - 1);
      VolleyKeeps(p, Eval(p, b, Call(t, 1.0)).0, t, n - 1);
    }
  }

  lemma {:induction false} ExpiringSplits(p: Limits, b: Bucket, xs: seq<Call>, ys: seq<Call>)
    ensures RunExpiring(p, b, xs + ys) == RunExpiring(p, b, xs) + RunExpiring(p, AfterExpiring(p, b, xs), ys)
    decreases xs
  {
    if xs == [] {
      assert xs + ys == ys;
    } else {
      assert (xs + ys)[1..] == xs[1..] + ys;
      ExpiringSplits(p, Eval(p, Surviving(b, xs[0].now), xs[0]).0, xs[1..], ys);
    }
  }

  lemma {:induction false} VolleysInOrder(from: real, t: real, n: nat, u: real, m: nat)
    requires from <= t <= u
    ensures Monotone(from, Volley(t, n) + Volley(u, m))
    decreases n, m
  {
    if n > 0 {
      assert (Volley(t, n) + Volley(u, m))[1..] == Volley(t, n - 1) + Volley(u, m);
      VolleysInOrder(t, t, n - 1, u, m);
    } else if m > 0 {
      assert Volley(t, 0) + Volley(u, m) == Volley(u, m);
      assert Volley(t, 0) + Volley(u, m - 1) == Volley(u, m)[1..];
      VolleysInOrder(u, u, 0, u, m - 1);
      assert Volley(u, 0) + Volley(u, m - 1) == Volley(u, m - 1);
    }
  }

  /** The trace that tells them apart: empty the bucket, let the key lapse,
      and ask for a full burst again. */
  function Telltale(q: Policy): seq<Call> {
    Volley(0.0, q.burst) + Volley(PastExpiry(q), q.burst)
  }

  function PastExpiry(q: Policy): real {
    EXPIRY_SECONDS + 30.0 / q.requestsPerMinute as real
  }

  lemma PastExpiryEarns(q: Policy)
    ensures PastExpiry(q) > EXPIRY_SECONDS
    ensures PastExpiry(q) * LimitsOf(q).rate == 60.0 * q.requestsPerMinute as real + 0.5
  {
    var m := q.requestsPerMinute as real;
    assert 30.0 / m * (m / 60.0) == 0.5;
  }

  lemma TelltaleInOrder(q: Policy)
    ensures InOrder(Telltale(q))
  {
    PastExpiryEarns(q);
    VolleysInOrder(0.0, 0.0, q.burst, PastExpiry(q), q.burst);
    assert Telltale(q)[0] == Volley(0.0, q.burst)[0] == Call(0.0, 1.0);
  }

  /** Both runs empty the bucket first. */
  lemma TelltaleSplits(q: Policy)
    ensures var p, first, second := LimitsOf(q), Volley(0.0, q.burst), Volley(PastExpiry(q), q.burst);
            Run(p, Missing, Telltale(q)) == Run(p, Missing, first) + Run(p, Stored(0.0, 0.0), second) &&
            RunExpiring(p, Missing, Telltale(q)) == Run(p, Missing, first) + RunExpiring(p, Stored(0.0, 0.0), second)
  {
    var p, first, second := LimitsOf(q), Volley(0.0, q.burst), Volley(PastExpiry(q), q.burst);
    RunSplits(p, Missing, first, second);
    ExpiringSplits(p, Missing, first, second);
    VolleyKeeps(p, Missing, 0.0, q.burst);
    VolleyDrains(p, Missing, 0.0, q.burst);
  }

  /** The second volley gets through only on the lapsed key. */
  lemma SecondVolley(q: LargeBurst)
    ensures var p, second := LimitsOf(q), Volley(PastExpiry(q), q.burst);
            !Run(p, Stored(0.0, 0.0), second)[q.burst - 1].allowed &&
            RunExpiring(p, Stored(0.0, 0.0), second)[q.burst - 1].allowed
  {
    var p, wait := LimitsOf(q), PastExpiry(q);
    PastExpiryEarns(q);
    assert Level(p, Stored(0.0, 0.0), wait) == 60.0 * q.requestsPerMinute as real + 0.5;
    VolleyDrains(p, Stored(0.0, 0.0), wait, q.burst);
    FreshVolley(p, Stored(0.0, 0.0), wait, q.burst);
  }

  lemma LargeBurstShowsExpiry(q: LargeBurst)
    ensures InOrder(Telltale(q))
    ensures RunExpiring(LimitsOf(q), Missing, Telltale(q)) != Run(LimitsOf(q), Missing, Telltale(q))
  {
    var p, second := LimitsOf(q), Volley(PastExpiry(q), q.burst);
    var k := 2 * q.burst - 1;
    TelltaleInOrder(q);
    TelltaleSplits(q);
    SecondVolley(q);
    assert Run(p, Missing, Telltale(q))[k] == Run(p, Stored(0.0, 0.0), second)[q.burst - 1];
    assert RunExpiring(p, Missing, Telltale(q))[k] == RunExpiring(p, Stored(0.0, 0.0), second)[q.burst - 1];
  }

  /** An expired key admits a full volley. */
  lemma FreshVolley(p: Limits, b: Bucket, t: real, n: nat)
    requires n > 0 && n as real == p.capacity && Surviving(b, t) == Missing
    ensures RunExpiring(p, b, Volley(t, n))[n - 1].allowed
  {
    assert RunExpiring(p, b, Volley(t, n)) == RunExpiring(p, Missing, Volley(t, n));
    VolleyKeeps(p, Missing, t, n);
    VolleyDrains(p, Missing, t, n);
  }

  /** Key expiry is unobservable exactly when the burst is at most sixty
      times the requests per minute, an hour's refill. */
  lemma ExpiryUnobservableIff(q: Policy)
    ensures q.burst <= 60 * q.requestsPerMinute <==>
            forall calls :: InOrder(calls) ==>
              RunExpiring(LimitsOf(q), Missing, calls) == Run(LimitsOf(q), Missing, calls)
  {
    if q.burst <= 60 * q.requestsPerMinute {
      var p := LimitsOf(q);
      assert EXPIRY_SECONDS * p.rate == 60.0 * q.requestsPerMinute as real;
      forall calls: seq<Call>
        ensures RunExpiring(p, Missing, calls) == Run(p, Missing, calls)
      {
        SmallBurstHidesExpiry(p, Missing, calls);
      }
    } else {
      LargeBurstShowsExpiry(q);
    }
  }

  // ------------------------------------------- rejected calls under expiry

  /** Leaving out rejected calls changes nothing for the others, on every trace
      of a bucket that expires. */
  ghost predicate RejectedStayFree(p: Limits) {
    forall calls, keep | Omits(p, calls, keep) ::
      RunExpiring(p, Missing, Select(calls, keep)) == Select(RunExpiring(p, Missing, calls), keep)
  }

  /** Only rejected calls are left out of the trace. */
  ghost predicate Omits(p: Limits, calls: seq<Call>, keep: seq<bool>) {
    && InOrder(calls) && |keep| == |calls|
    && forall k | 0 <= k < |calls| :: RunExpiring(p, Missing, calls)[k].allowed ==> keep[k]
  }

  /** A call too early for the next token, which renews the key's hour. */
  function TooEarly(q: Policy): real {
    30.0 / q.requestsPerMinute as real
  }

  /** The trace that shows the renewal: empty the bucket, ask too early, and
      ask for a full burst an hour after the first volley. */
  function Renewal(q: Policy): seq<Call> {
    Volley(0.0, q.burst) + [Call(TooEarly(q), 1.0)] + Volley(EXPIRY_SECONDS, q.burst)
  }

  /** The same trace without the early call. */
  function Unrenewed(q: Policy): seq<Call> {
    Volley(0.0, q.burst) + Volley(EXPIRY_SECONDS, q.burst)
  }

  /** Keep every call but the n-th. */
  predicate AllBut(keep: seq<bool>, n: nat) {
    forall k | 0 <= k < |keep| :: keep[k] <==> k != n
  }

  lemma {:induction false} SelectAll<T>(xs: seq<T>, keep: seq<bool>)
    requires |xs| == |keep| && forall k | 0 <= k < |keep| :: keep[k]
    ensures Select(xs, keep) == xs
    decreases xs
  {
    if xs != [] {
      SelectAll(xs[1..], keep[1..]);
      assert xs == [xs[0]] + xs[1..];
    }
  }

  lemma {:induction false} SelectAllBut<T>(xs: seq<T>, keep: seq<bool>, n: nat)
    requires |xs| == |keep| && n < |xs| && AllBut(keep, n)
    ensures Select(xs, keep) == xs[..n] + xs[n + 1..]
    decreases xs
  {
    if n == 0 {
      SelectAll(xs[1..], keep[1..]);
    } else {
      SelectAllBut(xs[1..], keep[1..], n - 1);
      assert xs[..n] == [xs[0]] + xs[1..][..n - 1];
      assert xs[n + 1..] == xs[1..][n..];
    }
  }

  lemma TooEarlyEarns(q: LargeBurst)
    ensures 0.0 < TooEarly(q) <= 30.0
    ensures TooEarly(q) * LimitsOf(q).rate == 0.5
    ensures (EXPIRY_SECONDS - TooEarly(q)) * LimitsOf(q).rate == 60.0 * q.requestsPerMinute as real - 0.5
  {
    var m := q.requestsPerMinute as real;
    assert 30.0 / m * (m / 60.0) == 0.5;
  }

  /** After the first volley the early call is turned away, and the key's hour
      starts again. */
  lemma EarlyCallRenews(q: LargeBurst)
    ensures var p, first, early := LimitsOf(q), Volley(0.0, q.burst), Call(TooEarly(q), 1.0);
            var reply := Eval(p, Stored(0.0, 0.0), early).1;
            !reply.allowed &&
            RunExpiring(p, Missing, first + [early]) == RunExpiring(p, Missing, first) + [reply] &&
            AfterExpiring(p, Missing, first + [early]) == Stored(0.5, TooEarly(q))
  {
    var p, first, early := LimitsOf(q), Volley(0.0, q.burst), Call(TooEarly(q), 1.0);
    TooEarlyEarns(q);
    VolleyKeeps(p, Missing, 0.0, q.burst);
    VolleyDrains(p, Missing, 0.0, q.burst);
    assert AfterExpiring(p, Missing, first) == Stored(0.0, 0.0);
    ExpiringSplits(p, Missing, first, [early]);
    AfterExpiringSplits(p, Missing, first, [early]);
    OneCall(p, Stored(0.0, 0.0), early);
  }

  /** An hour after the first volley the key is still there, and holds too
      little for the second. */
  lemma RenewedVolley(q: LargeBurst)
    ensures var kept := Stored(0.5, TooEarly(q));
            !RunExpiring(LimitsOf(q), kept, Volley(EXPIRY_SECONDS, q.burst))[q.burst - 1].allowed
  {
    var p, kept := LimitsOf(q), Stored(0.5, TooEarly(q));
    TooEarlyEarns(q);
    VolleyKeeps(p, kept, EXPIRY_SECONDS, q.burst);
    assert Level(p, kept, EXPIRY_SECONDS) == 60.0 * q.requestsPerMinute as real;
    VolleyDrains(p, kept, EXPIRY_SECONDS, q.burst);
  }

  lemma OneCall(p: Limits, b: Bucket, c: Call)
    requires Surviving(b, c.now) == b
    ensures RunExpiring(p, b, [c]) == [Eval(p, b, c).1] && AfterExpiring(p, b, [c]) == Eval(p, b, c).0
  {
    assert [c][1..] == [];
  }

  lemma {:induction false} AfterExpiringSplits(p: Limits, b: Bucket, xs: seq<Call>, ys: seq<Call>)
    ensures AfterExpiring(p, b, xs + ys) == AfterExpiring(p, AfterExpiring(p, b, xs), ys)
    decreases xs
  {
    if xs == [] {
      assert xs + ys == ys;
    } else {
      assert (xs + ys)[1..] == xs[1..] + ys;
      AfterExpiringSplits(p, Eval(p, Surviving(b, xs[0].now), xs[0]).0, xs[1..], ys);
    }
  }

  lemma RenewalInOrder(q: LargeBurst)
    ensures InOrder(Renewal(q))
  {
    var n, early := q.burst, Call(TooEarly(q), 1.0);
    TooEarlyEarns(q);
    VolleysInOrder(0.0, 0.0, n, TooEarly(q), 1);
    VolleysInOrder(TooEarly(q), TooEarly(q), 1, EXPIRY_SECONDS, n);
    assert Volley(TooEarly(q), 0) == [] && Volley(TooEarly(q), 1) == [early];
    MonotoneJoins(0.0, Volley(0.0, n), early, Volley(EXPIRY_SECONDS, n));
    assert Renewal(q)[0] == Volley(0.0, n)[0];
  }

  lemma {:induction false} MonotoneJoins(from: real, xs: seq<Call>, y: Call, zs: seq<Call>)
    requires Monotone(from, xs + [y]) && Monotone(y.now, [y] + zs)
    ensures Monotone(from, xs + [y] + zs)
    decreases xs
  {
    var all := xs + [y] + zs;
    if xs == [] {
      assert all == [y] + zs && xs + [y] == [y];
    } else {
      assert all[1..] == xs[1..] + [y] + zs && (xs + [y])[1..] == xs[1..] + [y];
      MonotoneJoins(xs[0].now, xs[1..], y, zs);
    }
  }

  /** With the early call, the last call of the trace is rejected. */
  lemma RenewalRuns(q: LargeBurst)
    ensures var p, n := LimitsOf(q), q.burst;
            var whole := RunExpiring(p, Missing, Renewal(q));
            |whole| == 2 * n + 1 && !whole[n].allowed && !whole[2 * n].allowed
  {
    var p, n, early := LimitsOf(q), q.burst, Call(TooEarly(q), 1.0);
    var first, second := Volley(0.0, n), Volley(EXPIRY_SECONDS, n);
    EarlyCallRenews(q);
    RenewedVolley(q);
    ExpiringSplits(p, Missing, first + [early], second);
    assert RunExpiring(p, Missing, Renewal(q))[2 * n]
           == RunExpiring(p, Stored(0.5, early.now), second)[n - 1];
  }

  /** Without it, the key is gone by then and the last call gets through. */
  lemma LapsedRuns(q: Policy)
    ensures |Unrenewed(q)| == 2 * q.burst
    ensures RunExpiring(LimitsOf(q), Missing, Unrenewed(q))[2 * q.burst - 1].allowed
  {
    var p, n := LimitsOf(q), q.burst;
    var first, second := Volley(0.0, n), Volley(EXPIRY_SECONDS, n);
    VolleyKeeps(p, Missing, 0.0, n);
    VolleyDrains(p, Missing, 0.0, n);
    ExpiringSplits(p, Missing, first, second);
    FreshVolley(p, Stored(0.0, 0.0), EXPIRY_SECONDS, n);
    assert RunExpiring(p, Missing, first + second)[2 * n - 1] == RunExpiring(p, Stored(0.0, 0.0), second)[n - 1];
  }

  lemma RenewalParts(q: Policy)
    ensures |Renewal(q)| == 2 * q.burst + 1
    ensures Renewal(q)[..q.burst] + Renewal(q)[q.burst + 1..] == Unrenewed(q)
  {
    assert Renewal(q)[..q.burst] == Volley(0.0, q.burst);
    assert Renewal(q)[q.burst + 1..] == Volley(EXPIRY_SECONDS, q.burst);
  }

  /** A trace whose last call depends on a rejected one in its middle. */
  lemma MiddleMatters(p: Limits, calls: seq<Call>, n: nat)
    requires n > 0 && InOrder(calls) && |calls| == 2 * n + 1
    requires !RunExpiring(p, Missing, calls)[n].allowed && !RunExpiring(p, Missing, calls)[2 * n].allowed
    requires RunExpiring(p, Missing, calls[..n] + calls[n + 1..])[2 * n - 1].allowed
    ensures !RejectedStayFree(p)
  {
    var whole, keep := RunExpiring(p, Missing, calls), seq(2 * n + 1, k => k != n);
    assert AllBut(keep, n);
    SelectAllBut(calls, keep, n);
    LastKept(whole, keep, n);
    OmitsRejected(p, calls, keep, n);
    assert RunExpiring(p, Missing, Select(calls, keep)) != Select(whole, keep);
  }

  lemma LastKept<T>(xs: seq<T>, keep: seq<bool>, n: nat)
    requires n > 0 && |xs| == |keep| == 2 * n + 1 && AllBut(keep, n)
    ensures |Select(xs, keep)| == 2 * n && Select(xs, keep)[2 * n - 1] == xs[2 * n]
  {
    SelectAllBut(xs, keep, n);
  }

  lemma OmitsRejected(p: Limits, calls: seq<Call>, keep: seq<bool>, n: nat)
    requires InOrder(calls) && |keep| == |calls| && n < |calls| && AllBut(keep, n)
    requires !RunExpiring(p, Missing, calls)[n].allowed
    ensures Omits(p, calls, keep)
  {
  }

  lemma LargeBurstShowsRejected(q: LargeBurst)
    ensures !RejectedStayFree(LimitsOf(q))
  {
    RenewalInOrder(q);
    RenewalRuns(q);
    LapsedRuns(q);
    RenewalParts(q);
    MiddleMatters(LimitsOf(q), Renewal(q), q.burst);
  }

  /** With expiry, where a rejected call renews the key's hour, rejected calls
      are free exactly when the burst is at most an hour's refill. */
  lemma RejectedFreeIff(q: Policy)
    ensures RejectedStayFree(LimitsOf(q)) <==> q.burst <= 60 * q.requestsPerMinute
  {
    if q.burst <= 60 * q.requestsPerMinute {
      var p := LimitsOf(q);
      assert EXPIRY_SECONDS * p.rate == 60.0 * q.requestsPerMinute as real;
      forall calls: seq<Call>, keep: seq<bool> | Omits(p, calls, keep)
        ensures RunExpiring(p, Missing, Select(calls, keep)) == Select(RunExpiring(p, Missing, calls), keep)
      {
        SmallBurstHidesExpiry(p, Missing, calls);
        SmallBurstHidesExpiry(p, Missing, Select(calls, keep));
        RejectedCallsAreFree(p, Missing, if calls == [] then 0.0 else calls[0].now, calls, keep);
      }
    } else {
      LargeBurstShowsRejected(q);
    }
  }

  // ------------------------------------------------------------- retry hint

  ghost predicate NoneAllowed(replies: seq<Reply>) {
    forall r | r in replies :: !r.allowed
  }

  /** A stretch of rejected calls leaves the bucket as it was, to later eyes. */
  lemma {:induction false} RejectedStretch(p: Limits, b: Bucket, from: real, calls: seq<Call>, until: real)
    requires InRange(p, b) && NotAfter(b, from) && Monotone(from, calls)
    requires from <= until && (calls != [] ==> calls[|calls| - 1].now <= until)
    requires NoneAllowed(Run(p, b, calls))
    ensures Level(p, After(p, b, calls), until) == Level(p, b, until)
    decreases calls
  {
    if calls != [] {
      var c := calls[0];
      var (b1, r) := Eval(p, b, c);
      var full := Run(p, b, calls);
      assert full == [r] + Run(p, b1, calls[1..]);
      assert r in full && forall x | x in full[1..] :: x in full;
      assert full[1..] == Run(p, b1, calls[1..]);
      EvalInRange(p, b, c);
      LastNotBefore(from, calls);
      RefillComposes(p, b, c.now, until);
      RejectedStretch(p, b1, c.now, calls[1..], until);
    }
  }

  lemma {:induction false} LastNotBefore(from: real, calls: seq<Call>)
    requires Monotone(from, calls) && calls != []
    ensures from <= calls[0].now <= calls[|calls| - 1].now
    decreases calls
  {
    if |calls| > 1 {
      LastNotBefore(calls[0].now, calls[1..]);
    }
  }

  lemma CeilBounds(x: real)
    ensures Ceil(x) as real - 1.0 < x <= Ceil(x) as real
  {
  }

  /** Division by a positive rate, on both sides of an inequality. */
  lemma EarnedBy(deficit: real, rate: real, elapsed: real)
    requires rate > 0.0
    ensures elapsed * 1000.0 >= deficit / rate * 1000.0 <==> elapsed * rate >= deficit
  {
    var share := deficit / rate;
    assert share * rate == deficit;
    if elapsed >= share {
      Product(elapsed - share, rate);
      assert (elapsed - share) * rate == elapsed * rate - deficit;
    } else {
      StrictProduct(share - elapsed, rate);
      assert (share - elapsed) * rate == deficit - elapsed * rate;
      assert elapsed * 1000.0 < share * 1000.0;
    }
  }

  lemma StrictProduct(x: real, y: real)
    requires x > 0.0 && y > 0.0
    ensures x * y > 0.0
  {
  }

  /** The retry hint is sound and tight: after a rejection with hint d, and
      with every call in between rejected too, the same request gets through d
      milliseconds later or more, and not d - 1 milliseconds later or less;
      a request for more than the burst never does. */
  lemma RetryHintExact(p: Limits, b: Bucket, c: Call, waiting: seq<Call>, retryAt: real)
    requires InRange(p, b) && NotAfter(b, c.now)
    requires !Eval(p, b, c).1.allowed
    requires Monotone(c.now, waiting) && NoneAllowed(Run(p, Eval(p, b, c).0, waiting))
    requires c.now <= retryAt && (waiting != [] ==> waiting[|waiting| - 1].now <= retryAt)
    ensures var hint := Eval(p, b, c).1.retryAfterMs;
            var now := After(p, Eval(p, b, c).0, waiting);
            var granted := Eval(p, now, Call(retryAt, c.cost)).1.allowed;
            hint >= 1 &&
            (c.cost > p.capacity ==> !granted) &&
            (c.cost <= p.capacity && (retryAt - c.now) * 1000.0 >= hint as real ==> granted) &&
            ((retryAt - c.now) * 1000.0 <= (hint - 1) as real ==> !granted)
  {
    EvalInRange(p, b, c);
    RejectedStretch(p, Eval(p, b, c).0, c.now, waiting, retryAt);
    RejectedAgain(p, b, c, retryAt, After(p, Eval(p, b, c).0, waiting));
  }

  /** The same request, on a bucket that holds what the rejected call's does. */
  lemma RejectedAgain(p: Limits, b: Bucket, c: Call, later: real, now: Bucket)
    requires !Eval(p, b, c).1.allowed && c.now <= later
    requires Level(p, now, later) == Level(p, Eval(p, b, c).0, later)
    ensures var hint := Eval(p, b, c).1.retryAfterMs;
            var granted := Eval(p, now, Call(later, c.cost)).1.allowed;
            hint >= 1 &&
            (c.cost > p.capacity ==> !granted) &&
            (c.cost <= p.capacity && (later - c.now) * 1000.0 >= hint as real ==> granted) &&
            ((later - c.now) * 1000.0 <= (hint - 1) as real ==> !granted)
  {
    var (b1, r) := Eval(p, b, c);
    RejectedLevel(p, b, c, later);
    var held := b1.tokens + (later - c.now) * p.rate;
    HintExact(p.rate, b1.tokens, c.cost, later - c.now, held, r.retryAfterMs);
    assert Eval(p, now, Call(later, c.cost)).1.allowed <==> Min(p.capacity, held) >= c.cost;
  }

  /** What a rejected call's bucket will hold. */
  lemma RejectedLevel(p: Limits, b: Bucket, c: Call, later: real)
    requires !Eval(p, b, c).1.allowed && c.now <= later
    ensures var b1 := Eval(p, b, c).0;
            Level(p, b1, later) == Min(p.capacity, b1.tokens + (later - c.now) * p.rate)
  {
  }

  /** The hint against the wait, in milliseconds. */
  lemma HintExact(rate: real, tokens: real, cost: real, wait: real, held: real, hint: int)
    requires rate > 0.0 && tokens < cost && wait >= 0.0 && hint == Ceil((cost - tokens) / rate * 1000.0)
    requires held == tokens + wait * rate
    ensures hint >= 1
    ensures wait * 1000.0 >= hint as real ==> held >= cost
    ensures wait * 1000.0 <= (hint - 1) as real ==> held < cost
  {
    CeilBounds((cost - tokens) / rate * 1000.0);
    EarnedBy(cost - tokens, rate, wait);
    EarnedBy(cost - tokens, rate, 0.0);
  }

  // ----------------------------------------------------- Retry-After header

  /** Python's round(ms / 1000): to the nearest second, halves to even. */
  function RoundSeconds(ms: nat): nat {
    var s, rest := ms / 1000, ms % 1000;
    if rest < 500 || (rest == 500 && s % 2 == 0) then s else s + 1
  }

  function RetryAfterHeader(ms: nat): nat {
    if RoundSeconds(ms) >= 1 then RoundSeconds(ms) else 1
  }

  /** The header a rejected caller sees is at most half a second short, and it
      covers the wait exactly when the rounding did not go down. */
  lemma HeaderAlmostCovers(ms: nat)
    ensures 1000 * RetryAfterHeader(ms) + 500 >= ms
    ensures 1000 * RetryAfterHeader(ms) >= ms <==>
            ms <= 1000 || ms % 1000 == 0 || ms % 1000 > 500
            || (ms % 1000 == 500 && ms / 1000 % 2 == 1)
  {
  }

  // ---------------------------------------------------- clocks stepping back

  /** Clocks that step back earn tokens twice, so the bound counts every forward
      movement: a bucket emptied at t, asked at t - d and again at t, grants d
      seconds' refill although no time has passed. */
  lemma ClockBackEarns(p: Limits, t: real, d: real)
    requires d > 0.0 && d * p.rate <= p.capacity
    ensures d * p.rate >= 0.0
    ensures var calls := [Call(t, p.capacity), Call(t - d, 0.0), Call(t, d * p.rate)];
            var rs := Run(p, Missing, calls);
            rs[0].allowed && rs[1].allowed && rs[2].allowed &&
            Admitted(calls, Run(p, Missing, calls)) == p.capacity + d * p.rate
  {
    Product(d, p.rate);
    var c0, c1, c2 := Call(t, p.capacity), Call(t - d, 0.0), Call(t, d * p.rate);
    ClockBackSteps(p, t, d);
    ThreeRun(p, c0, c1, c2);
    var r2 := Eval(p, Stored(0.0, t - d), c2).1;
    assert Run(p, Missing, [c0, c1, c2]) == [Reply(true, 0.0, 0), Reply(true, 0.0, 0), r2];
    ThreeAdmitted(c0, c1, c2, Reply(true, 0.0, 0), Reply(true, 0.0, 0), r2);
    assert Taken(c0, Reply(true, 0.0, 0)) == p.capacity && Taken(c1, Reply(true, 0.0, 0)) == 0.0;
    assert Taken(c2, r2) == d * p.rate;
  }

  lemma ThreeRun(p: Limits, c0: Call, c1: Call, c2: Call)
    ensures var (b0, r0) := Eval(p, Missing, c0);
            var (b1, r1) := Eval(p, b0, c1);
            Run(p, Missing, [c0, c1, c2]) == [r0, r1, Eval(p, b1, c2).1]
  {
    var (b0, r0) := Eval(p, Missing, c0);
    var (b1, r1) := Eval(p, b0, c1);
    assert [c0, c1, c2][1..] == [c1, c2] && [c1, c2][1..] == [c2] && [c2][1..] == [];
    assert Run(p, b1, [c2]) == [Eval(p, b1, c2).1];
    assert Run(p, b0, [c1, c2]) == [r1] + Run(p, b1, [c2]);
  }

  lemma ClockBackSteps(p: Limits, t: real, d: real)
    requires d > 0.0 && 0.0 <= d * p.rate <= p.capacity
    ensures Eval(p, Missing, Call(t, p.capacity)) == (Stored(0.0, t), Reply(true, 0.0, 0))
    ensures Eval(p, Stored(0.0, t), Call(t - d, 0.0)) == (Stored(0.0, t - d), Reply(true, 0.0, 0))
    ensures Eval(p, Stored(0.0, t - d), Call(t, d * p.rate)).1.allowed
  {
    assert Max(0.0, t - (t - d)) == d && Max(0.0, t - d - t) == 0.0;
  }

  lemma ThreeAdmitted(c0: Call, c1: Call, c2: Call, r0: Reply, r1: Reply, r2: Reply)
    ensures Admitted([c0, c1, c2], [r0, r1, r2]) == Taken(c0, r0) + Taken(c1, r1) + Taken(c2, r2)
  {
    assert [c0, c1, c2][1..] == [c1, c2] && [c1, c2][1..] == [c2] && [c2][1..] == [];
    assert [r0, r1, r2][1..] == [r1, r2] && [r1, r2][1..] == [r2] && [r2][1..] == [];
    assert Admitted([c2], [r2]) == Taken(c2, r2);
    assert Admitted([c1, c2], [r1, r2]) == Taken(c1, r1) + Taken(c2, r2);
  }
}
