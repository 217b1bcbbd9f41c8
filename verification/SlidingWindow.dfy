/**
 SlidingWindowRateLimiter (src/rate_limiter.cpp).  Times are integers (nanoseconds) read from a
 clock that never runs backwards; one tryAcquire reads it twice, once to discard old timestamps
 and once to record the grant.
 */
module SlidingWindow {
  import opened Wrappers

  datatype Config = Config(maxRequests: nat, window: int) {
    predicate Valid() { maxRequests > 0 && window > 0 }
  }

  /** The two clock readings of one tryAcquire. */
  datatype Call = Call(cleanup: int, push: int)

  predicate Sorted(ts: seq<int>) { forall i, j :: 0 <= i < j < |ts| ==> ts[i] <= ts[j] }

  /** How many of the times lie in [lo, hi]. */
  function CountIn(ts: seq<int>, lo: int, hi: int): nat {
    if ts == [] then 0
    else CountIn(ts[..|ts| - 1], lo, hi) + (if lo <= ts[|ts| - 1] <= hi then 1 else 0)
  }

  /** How many leading times lie before the cutoff. */
  function Old(ts: seq<int>, cutoff: int): (k: nat)
    ensures k <= |ts|
  {
    if ts != [] && ts[0] < cutoff then 1 + Old(ts[1..], cutoff) else 0
  }

  /** The stored times, beside the grants whose times the limiter has already forgotten. */
  datatype Limiter = Limiter(forgotten: seq<int>, timestamps: seq<int>) {
    /** The times of all grants ever. */
    function Grants(): seq<int> { forgotten + timestamps }
  }

  function Cleanup(c: Config, l: Limiter, now: int): Limiter {
    var k := Old(l.timestamps, now - c.window);
    Limiter(l.forgotten + l.timestamps[..k], l.timestamps[k..])
  }

  predicate Admits(c: Config, l: Limiter, call: Call) {
    |Cleanup(c, l, call.cleanup).timestamps| < c.maxRequests
  }

  function Step(c: Config, l: Limiter, call: Call): Limiter {
    var kept := Cleanup(c, l, call.cleanup);
    if |kept.timestamps| < c.maxRequests then kept.(timestamps := kept.timestamps + [call.push]) else kept
  }

  /** Clock readings that never decrease. */
  predicate Proper(calls: seq<Call>) {
    && (forall i :: 0 <= i < |calls| ==> calls[i].cleanup <= calls[i].push)
    && (forall i, j :: 0 <= i < j < |calls| ==> calls[i].push <= calls[j].cleanup)
  }

  function After(c: Config, calls: seq<Call>): Limiter {
    if calls == [] then Limiter([], [])
    else Step(c, After(c, calls[..|calls| - 1]), calls[|calls| - 1])
  }

  /** At the time of each grant, the window ending with it held at most maxRequests. */
  predicate Legal(c: Config, ts: seq<int>) {
    ts == [] ||
    ( && Legal(c, ts[..|ts| - 1])
      && CountIn(ts, ts[|ts| - 1] - c.window, ts[|ts| - 1]) <= c.maxRequests)
  }

  /** Up to time `now`, grants are in order and legal, and those forgotten are out of the window. */
  ghost predicate Inv(c: Config, l: Limiter, now: int) {
    && Sorted(l.Grants())
    && (forall i :: 0 <= i < |l.Grants()| ==> l.Grants()[i] <= now)
    && (forall i :: 0 <= i < |l.forgotten| ==> l.forgotten[i] < now - c.window)
    && Legal(c, l.Grants())
  }

  lemma {:induction false} CountBelow(ts: seq<int>, lo: int, hi: int)
    requires forall i :: 0 <= i < |ts| ==> ts[i] < lo
    ensures CountIn(ts, lo, hi) == 0
  {
    if ts == [] {
    } else {
      CountBelow(ts[..|ts| - 1], lo, hi);
    }
  }

  lemma {:induction false} CountConcat(a: seq<int>, b: seq<int>, lo: int, hi: int)
    ensures CountIn(a + b, lo, hi) == CountIn(a, lo, hi) + CountIn(b, lo, hi)
  {
    if b == [] {
      assert a + b == a;
    } else {
      var k := |b| - 1;
      assert (a + b)[..|a + b| - 1] == a + b[..k];
      CountConcat(a, b[..k], lo, hi);
    }
  }

  lemma {:induction false} CountAll(ts: seq<int>, lo: int, hi: int)
    requires forall i :: 0 <= i < |ts| ==> lo <= ts[i] <= hi
    ensures CountIn(ts, lo, hi) == |ts|
  {
    if ts == [] {
    } else {
      CountAll(ts[..|ts| - 1], lo, hi);
    }
  }

  lemma {:induction false} CountWiden(ts: seq<int>, lo: int, hi: int, lo': int, hi': int)
    requires forall i :: 0 <= i < |ts| && lo <= ts[i] <= hi ==> lo' <= ts[i] <= hi'
    ensures CountIn(ts, lo, hi) <= CountIn(ts, lo', hi')
  {
    if ts == [] {
    } else {
      CountWiden(ts[..|ts| - 1], lo, hi, lo', hi');
    }
  }

  lemma {:induction false} OldSplits(ts: seq<int>, cutoff: int)
    requires Sorted(ts)
    ensures forall i :: 0 <= i < Old(ts, cutoff) ==> ts[i] < cutoff
    ensures forall i :: Old(ts, cutoff) <= i < |ts| ==> ts[i] >= cutoff
  {
    if ts != [] && ts[0] < cutoff {
      OldSplits(ts[1..], cutoff);
      assert forall i :: 1 <= i < |ts| ==> ts[i] == ts[1..][i - 1];
    }
  }

  lemma {:induction false} StoredAreSorted(l: Limiter)
    requires Sorted(l.Grants())
    ensures Sorted(l.timestamps)
  {
    assert forall i :: 0 <= i < |l.timestamps| ==> l.timestamps[i] == l.Grants()[|l.forgotten| + i];
  }

  /** The clean-up forgets no grant of the window ending now, and keeps no other. */
  lemma {:induction false} CleanupInv(c: Config, l: Limiter, before: int, now: int)
    requires c.Valid() && Inv(c, l, before) && before <= now
    ensures Inv(c, Cleanup(c, l, now), now)
    ensures Cleanup(c, l, now).Grants() == l.Grants()
    ensures forall i :: 0 <= i < |Cleanup(c, l, now).timestamps| ==>
              now - c.window <= Cleanup(c, l, now).timestamps[i] <= now
  {
    StoredAreSorted(l);
    OldSplits(l.timestamps, now - c.window);
    var l' := Cleanup(c, l, now);
    assert l'.Grants() == l.Grants();
    forall i | 0 <= i < |l'.timestamps| ensures l'.timestamps[i] <= now {
      assert l'.timestamps[i] == l'.Grants()[|l'.forgotten| + i];
    }
  }

  /** After the clean-up the stored times are exactly the grants inside the window. */
  lemma {:induction false} KeptIsWindow(c: Config, l: Limiter, before: int, now: int)
    requires c.Valid() && Inv(c, l, before) && before <= now
    ensures |Cleanup(c, l, now).timestamps| == CountIn(l.Grants(), now - c.window, now)
  {
    CleanupInv(c, l, before, now);
    var l' := Cleanup(c, l, now);
    CountConcat(l'.forgotten, l'.timestamps, now - c.window, now);
    CountBelow(l'.forgotten, now - c.window, now);
    CountAll(l'.timestamps, now - c.window, now);
  }

  lemma {:induction false} Snoc(c: Config, ts: seq<int>, x: int)
    ensures CountIn(ts + [x], x - c.window, x) <= CountIn(ts, x - c.window, x) + 1
    ensures Legal(c, ts) && CountIn(ts + [x], x - c.window, x) <= c.maxRequests ==> Legal(c, ts + [x])
  {
    var all := ts + [x];
    assert all[..|all| - 1] == ts && all[|all| - 1] == x;
  }

  lemma {:induction false} GrantLegal(c: Config, g: seq<int>, call: Call)
    requires Legal(c, g) && call.cleanup <= call.push && (forall i :: 0 <= i < |g| ==> g[i] <= call.cleanup)
    requires CountIn(g, call.cleanup - c.window, call.cleanup) < c.maxRequests
    ensures Legal(c, g + [call.push])
  {
    Snoc(c, g, call.push);
    CountWiden(g, call.push - c.window, call.push, call.cleanup - c.window, call.cleanup);
  }

  lemma {:induction false} StepInv(c: Config, l: Limiter, before: int, call: Call)
    requires c.Valid() && Inv(c, l, before) && before <= call.cleanup <= call.push
    ensures Inv(c, Step(c, l, call), call.push)
    ensures Step(c, l, call).Grants() == l.Grants() + if Admits(c, l, call) then [call.push] else []
  {
    hide Legal, CountIn, Old;
    CleanupInv(c, l, before, call.cleanup);
    KeptIsWindow(c, l, before, call.cleanup);
    var kept, l' := Cleanup(c, l, call.cleanup), Step(c, l, call);
    if Admits(c, l, call) {
      assert l'.Grants() == l.Grants() + [call.push];
      GrantLegal(c, l.Grants(), call);
    } else {
      assert l' == kept && l'.Grants() == l.Grants() + [];
    }
  }

  lemma {:induction false} StartInv(c: Config, now: int)
    ensures Inv(c, Limiter([], []), now)
  {}

  lemma {:induction false} InvLater(c: Config, l: Limiter, before: int, now: int)
    requires Inv(c, l, before) && before <= now
    ensures Inv(c, l, now)
  {}

  lemma {:induction false} RunInv(c: Config, calls: seq<Call>, now: int)
    requires c.Valid() && Proper(calls)
    requires calls != [] ==> calls[|calls| - 1].push <= now
    ensures Inv(c, After(c, calls), now)
  {
    hide Inv, Step;
    if calls == [] {
      StartInv(c, now);
    } else {
      var k := |calls| - 1;
      RunInv(c, calls[..k], calls[k].cleanup);
      StepInv(c, After(c, calls[..k]), calls[k].cleanup, calls[k]);
      InvLater(c, After(c, calls), calls[k].push, now);
    }
  }

  /**
   The limiter, which forgets old grants, decides as one that remembers all of them: a request is
   admitted if and only if fewer than maxRequests grants lie in the closed window ending now.
   */
  lemma {:induction false} DecidesByFullHistory(c: Config, calls: seq<Call>, call: Call)
    requires c.Valid() && Proper(calls + [call])
    ensures Admits(c, After(c, calls), call) <==>
              CountIn(After(c, calls).Grants(), call.cleanup - c.window, call.cleanup) < c.maxRequests
  {
    hide Inv, CountIn, After, Cleanup;
    var all := calls + [call];
    assert all[|calls|] == call;
    assert forall i :: 0 <= i < |calls| ==> calls[i] == all[i];
    RunInv(c, calls, call.cleanup);
    KeptIsWindow(c, After(c, calls), call.cleanup, call.cleanup);
  }

  lemma {:induction false} WindowOfGrants(c: Config, ts: seq<int>, a: int)
    requires Sorted(ts)
    requires Legal(c, ts)
    ensures CountIn(ts, a, a + c.window) <= c.maxRequests
  {
    if ts == [] {
    } else {
      var k := |ts| - 1;
      if ts[k] <= a + c.window {
        CountWiden(ts, a, a + c.window, ts[k] - c.window, ts[k]);
      } else {
        WindowOfGrants(c, ts[..k], a);
      }
    }
  }

  /** Every closed interval as long as the window holds at most maxRequests grants. */
  lemma {:induction false} WindowBound(c: Config, calls: seq<Call>, a: int)
    requires c.Valid() && Proper(calls)
    ensures CountIn(After(c, calls).Grants(), a, a + c.window) <= c.maxRequests
  {
    RunInv(c, calls, if calls == [] then 0 else calls[|calls| - 1].push);
    WindowOfGrants(c, After(c, calls).Grants(), a);
  }

  /** Counting the stored times in the window ending now counts all grants in it. */
  lemma {:induction false} StoredCount(c: Config, l: Limiter, before: int, now: int)
    requires c.Valid() && Inv(c, l, before) && before <= now
    ensures CountIn(l.timestamps, now - c.window, now) == CountIn(l.Grants(), now - c.window, now) <= c.maxRequests
  {
    CountConcat(l.forgotten, l.timestamps, now - c.window, now);
    CountBelow(l.forgotten, now - c.window, now);
    WindowOfGrants(c, l.Grants(), now - c.window);
  }

  /** The object itself. */
  class SlidingWindowRateLimiter {
    const config: Config
    var timestamps: seq<int>
    ghost var forgotten: seq<int>
    ghost var clock: int

    ghost function View(): Limiter
      reads this
    {
      Limiter(forgotten, timestamps)
    }

    ghost predicate Valid()
      reads this
    {
      config.Valid() && Inv(config, View(), clock)
    }

    constructor (config: Config, ghost now: int)
      requires config.Valid()
      ensures this.config == config && View() == After(config, []) && Valid() && clock == now
    {
      this.config := config;
      timestamps, forgotten, clock := [], [], now;
    }

    /** The source's constructor, which throws when there is no quota or no window. */
    static method Create(config: Config, ghost now: int) returns (r: Option<SlidingWindowRateLimiter>)
      ensures r.None? <==> config.maxRequests == 0 || config.window <= 0
      ensures r.Some? ==> fresh(r.value) && r.value.config == config && r.value.View() == After(config, [])
      ensures r.Some? ==> r.value.Valid() && r.value.clock == now
    {
      if config.maxRequests == 0 || config.window <= 0 { return None; }
      var l := new SlidingWindowRateLimiter(config, now);
      return Some(l);
    }

    method CleanUp(now: int)
      modifies this`timestamps, this`forgotten
      ensures View() == Cleanup(config, old(View()), now)
    {
      var cutoff := now - config.window;
      ghost var k := 0;
      while timestamps != [] && timestamps[0] < cutoff
        invariant k <= |old(timestamps)| && timestamps == old(timestamps)[k..]
        invariant forgotten == old(forgotten) + old(timestamps)[..k]
        invariant k + Old(timestamps, cutoff) == Old(old(timestamps), cutoff)
        decreases |timestamps|
      {
        forgotten := forgotten + [timestamps[0]];
        timestamps := timestamps[1..];
        k := k + 1;
      }
    }

    method TryAcquire(now: int, later: int) returns (ok: bool)
      requires Valid() && clock <= now <= later
      modifies this
      ensures Valid() && clock == later
      ensures View() == Step(config, old(View()), Call(now, later))
      ensures ok <==> CountIn(old(View()).Grants(), now - config.window, now) < config.maxRequests
    {
      KeptIsWindow(config, View(), clock, now);
      StepInv(config, View(), clock, Call(now, later));
      CleanUp(now);
      clock := later;
      ok := |timestamps| < config.maxRequests;
      if ok {
        timestamps := timestamps + [later];
      }
    }

    /** Exactly the requests that the window ending now still has room for. */
    method RemainingRequests(now: int) returns (remaining: nat)
      requires Valid() && clock <= now
      ensures remaining + CountIn(View().Grants(), now - config.window, now) == config.maxRequests
    {
      var cutoff := now - config.window;
      var valid := 0;
      for i := 0 to |timestamps|
        invariant valid == CountIn(timestamps[..i], cutoff, now)
      {
        assert timestamps[..i + 1][..i] == timestamps[..i];
        assert timestamps[i] == View().Grants()[|forgotten| + i];
        if timestamps[i] >= cutoff { valid := valid + 1; }
      }
      assert timestamps[..|timestamps|] == timestamps;
      StoredCount(config, View(), clock, now);
      remaining := if config.maxRequests > valid then config.maxRequests - valid else 0;
    }
  }
}
