/**
 TokenBucketRateLimiter (src/rate_limiter.cpp).  Tokens and times are reals; the clock is an input
 that never runs backwards.
 */
module TokenBucket {
  import opened Wrappers

  datatype Config = Config(tokensPerSecond: real, burstSize: real, initialTokens: real) {
    predicate Valid() { tokensPerSecond > 0.0 && burstSize > 0.0 }
    function Initial(): real { if initialTokens >= 0.0 then initialTokens else burstSize }
  }

  /** One tryAcquire(tokens) at clock reading `now`. */
  datatype Call = Call(now: real, tokens: real)

  datatype Bucket = Bucket(tokens: real, lastRefill: real)

  function Min(a: real, b: real): real { if a <= b then a else b }

  /** The tokens that flow in over a stretch of time. */
  function Inflow(c: Config, from: real, to: real): real { (to - from) * c.tokensPerSecond }

  function Refill(c: Config, b: Bucket, now: real): Bucket {
    Bucket(Min(b.tokens + Inflow(c, b.lastRefill, now), c.burstSize), now)
  }

  /** The tokens a call is granted: all it asked for, or none. */
  function Granted(c: Config, b: Bucket, call: Call): real {
    if Refill(c, b, call.now).tokens >= call.tokens then call.tokens else 0.0
  }

  function Step(c: Config, b: Bucket, call: Call): Bucket {
    var r := Refill(c, b, call.now);
    r.(tokens := r.tokens - Granted(c, b, call))
  }

  /** Calls that ask for a positive amount, at times that never decrease from `start` on. */
  predicate Proper(start: real, calls: seq<Call>) {
    && (forall i :: 0 <= i < |calls| ==> calls[i].tokens > 0.0 && calls[i].now >= start)
    && (forall i, j :: 0 <= i < j < |calls| ==> calls[i].now <= calls[j].now)
  }

  /** The bucket after the first n calls on a limiter constructed at `start`. */
  function After(c: Config, start: real, calls: seq<Call>, n: nat): Bucket
    requires n <= |calls|
  {
    if n == 0 then Bucket(c.Initial(), start) else Step(c, After(c, start, calls, n - 1), calls[n - 1])
  }

  /** What call k of the run was granted. */
  function Grant(c: Config, start: real, calls: seq<Call>, k: nat): real
    requires k < |calls|
  {
    Granted(c, After(c, start, calls, k), calls[k])
  }

  /** All that was granted to the first n calls at times in [t1, t2]. */
  function GrantedIn(c: Config, start: real, calls: seq<Call>, n: nat, t1: real, t2: real): real
    requires n <= |calls|
  {
    if n == 0 then 0.0
    else
      GrantedIn(c, start, calls, n - 1, t1, t2)
      + (if t1 <= calls[n - 1].now <= t2 then Grant(c, start, calls, n - 1) else 0.0)
  }

  /** The inflow of tokens over a stretch of time is additive and never negative. */
  lemma {:induction false} InflowAdds(c: Config, t0: real, t1: real, t2: real)
    requires c.Valid()
    ensures Inflow(c, t0, t2) == Inflow(c, t0, t1) + Inflow(c, t1, t2)
    ensures t0 <= t1 ==> Inflow(c, t0, t1) >= 0.0
    ensures t1 <= t2 ==> Inflow(c, t1, t2) >= 0.0
  {}

  lemma {:induction false} StepRange(c: Config, b: Bucket, call: Call)
    requires c.Valid() && b.tokens >= 0.0 && b.lastRefill <= call.now && call.tokens > 0.0
    ensures 0.0 <= Step(c, b, call).tokens <= c.burstSize && Step(c, b, call).lastRefill == call.now
  {
    InflowAdds(c, b.lastRefill, b.lastRefill, call.now);
  }

  lemma {:induction false} TokensInRange(c: Config, start: real, calls: seq<Call>, n: nat)
    requires c.Valid() && Proper(start, calls) && n <= |calls|
    ensures var b := After(c, start, calls, n);
            b.tokens >= 0.0 && b.lastRefill == if n == 0 then start else calls[n - 1].now
  {
    if n == 0 {
    } else {
      TokensInRange(c, start, calls, n - 1);
      StepRange(c, After(c, start, calls, n - 1), calls[n - 1]);
    }
  }

  /** A grant inside the window is paid for by the bucket, and the bucket by burst and inflow. */
  lemma {:induction false} PaidFor(c: Config, b: Bucket, call: Call, t1: real, granted: real)
    requires c.Valid() && b.tokens >= 0.0 && b.lastRefill <= call.now && call.tokens > 0.0 && t1 <= call.now
    requires if b.lastRefill < t1 then granted == 0.0
             else granted == 0.0 || granted <= c.burstSize + Inflow(c, t1, b.lastRefill) - b.tokens
    ensures granted + Granted(c, b, call) <= c.burstSize + Inflow(c, t1, call.now) - Step(c, b, call).tokens
  {
    InflowAdds(c, t1, b.lastRefill, call.now);
    InflowAdds(c, t1, t1, call.now);
  }

  /** What the window's calls took is bounded by a full bucket plus the inflow, less what is left. */
  lemma {:induction false} WindowInvariant(c: Config, start: real, calls: seq<Call>, n: nat, t1: real, t2: real)
    requires c.Valid() && Proper(start, calls) && n <= |calls| && t1 <= t2
    ensures var g, b := GrantedIn(c, start, calls, n, t1, t2), After(c, start, calls, n);
            && (b.lastRefill < t1 ==> g == 0.0)
            && (t1 <= b.lastRefill <= t2 ==> g == 0.0 || g <= c.burstSize + Inflow(c, t1, b.lastRefill) - b.tokens)
            && (t2 < b.lastRefill ==> g <= c.burstSize + Inflow(c, t1, t2))
  {
    InflowAdds(c, t1, t1, t2);
    if n == 0 {
    } else {
      var b, call := After(c, start, calls, n - 1), calls[n - 1];
      var g := GrantedIn(c, start, calls, n - 1, t1, t2);
      WindowInvariant(c, start, calls, n - 1, t1, t2);
      TokensInRange(c, start, calls, n - 1);
      StepRange(c, b, call);
      if t1 <= call.now <= t2 {
        PaidFor(c, b, call, t1, g);
      } else if b.lastRefill <= t2 {
        InflowAdds(c, t1, b.lastRefill, t2);
      }
    }
  }

  /** In every time interval, at most a full bucket plus the inflow of the interval is granted. */
  lemma {:induction false} RateBound(c: Config, start: real, calls: seq<Call>, t1: real, t2: real)
    requires c.Valid() && Proper(start, calls) && t1 <= t2
    ensures GrantedIn(c, start, calls, |calls|, t1, t2) <= c.burstSize + (t2 - t1) * c.tokensPerSecond
  {
    var b := After(c, start, calls, |calls|);
    WindowInvariant(c, start, calls, |calls|, t1, t2);
    TokensInRange(c, start, calls, |calls|);
    InflowAdds(c, t1, t1, t2);
    InflowAdds(c, t1, b.lastRefill, t2);
    assert Inflow(c, t1, t2) == (t2 - t1) * c.tokensPerSecond;
  }

  // The limiter is also as generous as that law permits.

  /** All that calls i, ..., n - 1 were granted. */
  function GrantedSince(c: Config, start: real, calls: seq<Call>, i: nat, n: nat): real
    requires i <= n <= |calls|
    decreases n
  {
    if i == n then 0.0 else GrantedSince(c, start, calls, i, n - 1) + Grant(c, start, calls, n - 1)
  }

  /** The grants of consecutive calls are those of the closed interval from the first of these calls to the last. */
  lemma {:induction false} IntervalOfCalls(c: Config, start: real, calls: seq<Call>, i: nat, n: nat, t2: real)
    requires Proper(start, calls) && i < n <= |calls| && (i == 0 || calls[i - 1].now < calls[i].now)
    requires calls[n - 1].now <= t2
    ensures GrantedIn(c, start, calls, n, calls[i].now, t2) == GrantedSince(c, start, calls, i, n)
    decreases n
  {
    if n == i + 1 {
      NoneBefore(c, start, calls, i, calls[i].now, t2);
    } else {
      IntervalOfCalls(c, start, calls, i, n - 1, t2);
    }
  }

  lemma {:induction false} NoneBefore(c: Config, start: real, calls: seq<Call>, n: nat, t1: real, t2: real)
    requires Proper(start, calls) && n <= |calls| && (n == 0 || calls[n - 1].now < t1)
    ensures GrantedIn(c, start, calls, n, t1, t2) == 0.0
  {
    if n == 0 {
    } else {
      if n > 1 { assert calls[n - 2].now <= calls[n - 1].now; }
      NoneBefore(c, start, calls, n - 1, t1, t2);
    }
  }

  /** What the law leaves at `now`, after n calls, for the interval that starts with call i. */
  function Headroom(c: Config, start: real, calls: seq<Call>, i: nat, n: nat, now: real): real
    requires i < n <= |calls|
  {
    c.burstSize + (now - calls[i].now) * c.tokensPerSecond - GrantedSince(c, start, calls, i, n)
  }

  /** What is left of the tokens the limiter started with. */
  function InitialHeadroom(c: Config, start: real, calls: seq<Call>, n: nat, now: real): real
    requires n <= |calls|
  {
    (if c.initialTokens >= 0.0 then c.initialTokens else c.burstSize)
    + (now - start) * c.tokensPerSecond - GrantedSince(c, start, calls, 0, n)
  }

  lemma {:induction false} HeadroomInflow(c: Config, start: real, calls: seq<Call>, i: nat, n: nat, now: real)
    requires i < n <= |calls|
    ensures Headroom(c, start, calls, i, n, now)
         == c.burstSize + Inflow(c, calls[i].now, now) - GrantedSince(c, start, calls, i, n)
  {}

  lemma {:induction false} InitialInflow(c: Config, start: real, calls: seq<Call>, n: nat, now: real)
    requires n <= |calls|
    ensures InitialHeadroom(c, start, calls, n, now)
         == c.Initial() + Inflow(c, start, now) - GrantedSince(c, start, calls, 0, n)
  {}

  /** `x` is the least of all the allowances in force after n calls. */
  ghost predicate Least(c: Config, start: real, calls: seq<Call>, n: nat, now: real, x: real)
    requires n <= |calls|
  {
    && x <= c.burstSize
    && x <= InitialHeadroom(c, start, calls, n, now)
    && (forall i :: 0 <= i < n ==> x <= Headroom(c, start, calls, i, n, now))
    && ( || x == c.burstSize || x == InitialHeadroom(c, start, calls, n, now)
         || exists i :: 0 <= i < n && x == Headroom(c, start, calls, i, n, now))
  }

  /** Call n and the time until `now` shift the bucket and every allowance by the same amount. */
  function Shift(c: Config, start: real, calls: seq<Call>, n: nat, now: real): real
    requires n < |calls|
  {
    Inflow(c, calls[n].now, now) - Grant(c, start, calls, n)
  }

  lemma {:induction false} AllowancesShift(c: Config, start: real, calls: seq<Call>, i: nat, n: nat, now: real)
    requires c.Valid() && i < n < |calls|
    ensures Headroom(c, start, calls, i, n + 1, now)
         == Headroom(c, start, calls, i, n, calls[n].now) + Shift(c, start, calls, n, now)
  {
    hide Headroom, Inflow;
    HeadroomInflow(c, start, calls, i, n + 1, now);
    HeadroomInflow(c, start, calls, i, n, calls[n].now);
    InflowAdds(c, calls[i].now, calls[n].now, now);
  }

  lemma {:induction false} InitialShifts(c: Config, start: real, calls: seq<Call>, n: nat, now: real)
    requires c.Valid() && n < |calls|
    ensures InitialHeadroom(c, start, calls, n + 1, now)
         == InitialHeadroom(c, start, calls, n, calls[n].now) + Shift(c, start, calls, n, now)
    ensures Headroom(c, start, calls, n, n + 1, now) == c.burstSize + Shift(c, start, calls, n, now)
  {
    hide Headroom, InitialHeadroom, Inflow;
    HeadroomInflow(c, start, calls, n, n + 1, now);
    InitialInflow(c, start, calls, n + 1, now);
    InitialInflow(c, start, calls, n, calls[n].now);
    InflowAdds(c, start, calls[n].now, now);
    assert GrantedSince(c, start, calls, n, n + 1) == GrantedSince(c, start, calls, n, n) + Grant(c, start, calls, n);
  }

  /** The least allowance, shifted and capped by the burst size, is the least allowance again. */
  lemma {:induction false} LeastShifts(c: Config, start: real, calls: seq<Call>, n: nat, now: real, x: real)
    requires c.Valid() && n < |calls| && Least(c, start, calls, n, calls[n].now, x)
    ensures Least(c, start, calls, n + 1, now, Min(x + Shift(c, start, calls, n, now), c.burstSize))
  {
    var x', m := x + Shift(c, start, calls, n, now), n + 1;
    InitialShifts(c, start, calls, n, now);
    forall i | 0 <= i < m
      ensures x' <= Headroom(c, start, calls, i, m, now)
      ensures i < n && x == Headroom(c, start, calls, i, n, calls[n].now) ==> x' == Headroom(c, start, calls, i, m, now)
    {
      if i < n { AllowancesShift(c, start, calls, i, n, now); }
    }
    if x == c.burstSize {
      assert x' == Headroom(c, start, calls, n, m, now);
    } else if x != InitialHeadroom(c, start, calls, n, calls[n].now) {
      var i :| 0 <= i < n && x == Headroom(c, start, calls, i, n, calls[n].now);
      assert x' == Headroom(c, start, calls, i, m, now);
    }
  }

  lemma {:induction false} BucketIsLeast(c: Config, start: real, calls: seq<Call>, n: nat, now: real)
    requires c.Valid() && Proper(start, calls) && n <= |calls|
    ensures Least(c, start, calls, n, now, Refill(c, After(c, start, calls, n), now).tokens)
  {
    if n == 0 {
    } else {
      var k := n - 1;
      var x := Refill(c, After(c, start, calls, k), calls[k].now).tokens;
      BucketIsLeast(c, start, calls, k, calls[k].now);
      LeastShifts(c, start, calls, k, now, x);
      assert Refill(c, After(c, start, calls, n), now).tokens == Min(x + Shift(c, start, calls, k, now), c.burstSize);
    }
  }

  /**
   A request is granted if and only if granting it breaks neither the rate bound of any interval
   that starts with an earlier call, nor the burst limit, nor the starting stock.
   */
  lemma {:induction false} GrantsExactlyWhatTheLawAllows(c: Config, start: real, calls: seq<Call>, n: nat)
    requires c.Valid() && Proper(start, calls) && n < |calls|
    ensures var now, want := calls[n].now, calls[n].tokens;
            Grant(c, start, calls, n) == want <==>
              && want <= c.burstSize
              && want <= InitialHeadroom(c, start, calls, n, now)
              && forall i :: 0 <= i < n ==> want <= Headroom(c, start, calls, i, n, now)
  {
    BucketIsLeast(c, start, calls, n, calls[n].now);
  }

  /** `x` is what the bucket holds at `now`: old tokens plus the flow since, but at most a burst. */
  predicate IsRefilled(c: Config, b: Bucket, now: real, x: real) {
    var flowed := b.tokens + (now - b.lastRefill) * c.tokensPerSecond;
    x <= c.burstSize && x <= flowed && (x == c.burstSize || x == flowed)
  }

  datatype Outcome = Acquired | Refused | InvalidArgument

  /** The object itself. */
  class TokenBucketRateLimiter {
    const config: Config
    var tokens: real
    var lastRefill: real

    ghost function View(): Bucket
      reads this
    {
      Bucket(tokens, lastRefill)
    }

    constructor (config: Config, now: real)
      requires config.Valid()
      ensures this.config == config && View() == After(config, now, [], 0)
    {
      this.config := config;
      lastRefill := now;
      tokens := if config.initialTokens >= 0.0 then config.initialTokens else config.burstSize;
    }

    /** The source's constructor, which throws on a rate or burst size that is not positive. */
    static method Create(config: Config, now: real) returns (r: Option<TokenBucketRateLimiter>)
      ensures r.None? <==> config.tokensPerSecond <= 0.0 || config.burstSize <= 0.0
      ensures r.Some? ==> fresh(r.value) && r.value.config == config && r.value.View() == After(config, now, [], 0)
      ensures r.Some? ==> r.value.lastRefill == now
      ensures r.Some? ==> r.value.tokens == if config.initialTokens >= 0.0 then config.initialTokens else config.burstSize
    {
      if config.tokensPerSecond <= 0.0 || config.burstSize <= 0.0 { return None; }
      var l := new TokenBucketRateLimiter(config, now);
      return Some(l);
    }

    method RefillNow(now: real)
      modifies this
      ensures View() == Refill(config, old(View()), now)
    {
      var elapsed := now - lastRefill;
      tokens := Min(tokens + elapsed * config.tokensPerSecond, config.burstSize);
      lastRefill := now;
    }

    method TryAcquire(now: real, want: real) returns (r: Outcome)
      modifies this
      ensures r == InvalidArgument <==> want <= 0.0
      ensures want <= 0.0 ==> View() == old(View())
      ensures want > 0.0 ==> View() == Step(config, old(View()), Call(now, want))
      ensures want > 0.0 ==> (r == Acquired <==> Granted(config, old(View()), Call(now, want)) == want)
      ensures r == Acquired ==> IsRefilled(config, old(View()), now, tokens + want) && tokens >= 0.0 && lastRefill == now
      ensures r == Refused ==> IsRefilled(config, old(View()), now, tokens) && tokens < want && lastRefill == now
    {
      if want <= 0.0 { return InvalidArgument; }
      RefillNow(now);
      if tokens >= want {
        tokens := tokens - want;
        return Acquired;
      }
      return Refused;
    }

    method AvailableTokens(now: real) returns (available: real)
      ensures available == Refill(config, View(), now).tokens && IsRefilled(config, View(), now, available)
    {
      var elapsed := now - lastRefill;
      available := Min(tokens + elapsed * config.tokensPerSecond, config.burstSize);
    }
  }
}
