/**
 The coroutines that a channel suspends (include/pman/async/channel.hpp): none is forgotten, none is
 resumed twice, and both queues are first come, first served.
 */
module ChannelHandles {
  import opened Channel

  // Whose resumption is posted, and who waits

  function RecvHandles(q: seq<Wake>): seq<nat> {
    if q == [] then [] else (if q[0].WakeRecv? then [q[0].handle] else []) + RecvHandles(q[1..])
  }

  function SendHandles(q: seq<Wake>): seq<nat> {
    if q == [] then [] else (if q[0].WakeSend? then [q[0].handle] else []) + SendHandles(q[1..])
  }

  function Blocked<T>(ws: seq<SendWaiter<T>>): (hs: seq<nat>)
    ensures |hs| == |ws|
  {
    if ws == [] then [] else [ws[0].handle] + Blocked(ws[1..])
  }

  /** The suspended receivers, those about to be resumed first. */
  function Receivers<T>(c: Chan<T>): seq<nat> { RecvHandles(c.posted) + c.recvWaiters }

  /** The suspended senders, those about to be resumed first. */
  function Senders<T>(c: Chan<T>): seq<nat> { SendHandles(c.posted) + Blocked(c.sendWaiters) }

  // What an event suspends and resumes

  function RecvSuspends<T>(c: Chan<T>, e: Event<T>): seq<nat> {
    if e.Recv? && !EndsReceive(c, e) then [e.handle] else []
  }

  function SendSuspends<T>(c: Chan<T>, e: Event<T>): seq<nat> {
    if e.Send? && !c.closed && |c.buffer| >= c.capacity then [e.handle] else []
  }

  function RecvResumes<T>(c: Chan<T>, e: Event<T>): seq<nat>
    requires Enabled(c, e)
  {
    if e.RunPosted? && c.posted[0].WakeRecv? then [c.posted[0].handle] else []
  }

  function SendResumes<T>(c: Chan<T>, e: Event<T>): seq<nat>
    requires Enabled(c, e)
  {
    if e.RunPosted? && c.posted[0].WakeSend? then [c.posted[0].handle] else []
  }

  lemma {:induction false} Assoc(a: seq<nat>, b: seq<nat>, c: seq<nat>)
    ensures a + b + c == a + (b + c)
  {}

  lemma {:induction false} RecvConcat(a: seq<Wake>, b: seq<Wake>)
    ensures RecvHandles(a + b) == RecvHandles(a) + RecvHandles(b)
  {
    if a == [] {
      assert a + b == b;
    } else {
      assert (a + b)[1..] == a[1..] + b && (a + b)[0] == a[0];
      RecvConcat(a[1..], b);
      Assoc(if a[0].WakeRecv? then [a[0].handle] else [], RecvHandles(a[1..]), RecvHandles(b));
    }
  }

  lemma {:induction false} SendConcat(a: seq<Wake>, b: seq<Wake>)
    ensures SendHandles(a + b) == SendHandles(a) + SendHandles(b)
  {
    if a == [] {
      assert a + b == b;
    } else {
      assert (a + b)[1..] == a[1..] + b && (a + b)[0] == a[0];
      SendConcat(a[1..], b);
      Assoc(if a[0].WakeSend? then [a[0].handle] else [], SendHandles(a[1..]), SendHandles(b));
    }
  }

  lemma {:induction false} HandlesConcat(a: seq<Wake>, b: seq<Wake>)
    ensures RecvHandles(a + b) == RecvHandles(a) + RecvHandles(b)
    ensures SendHandles(a + b) == SendHandles(a) + SendHandles(b)
  {
    hide RecvHandles, SendHandles;
    RecvConcat(a, b);
    SendConcat(a, b);
  }

  lemma {:induction false} OneWake(w: Wake)
    ensures RecvHandles([w]) == (if w.WakeRecv? then [w.handle] else [])
    ensures SendHandles([w]) == (if w.WakeSend? then [w.handle] else [])
  {
    assert [w][1..] == [];
  }

  lemma {:induction false} NoWakes(q: seq<Wake>)
    requires q == []
    ensures RecvHandles(q) == [] && SendHandles(q) == []
  {}

  lemma {:induction false} RecvWakesHandles(hs: seq<nat>)
    ensures RecvHandles(RecvWakesOf(hs)) == hs && SendHandles(RecvWakesOf(hs)) == []
  {
    hide RecvHandles, SendHandles;
    if hs == [] {
      NoWakes(RecvWakesOf(hs));
    } else {
      var k := |hs| - 1;
      RecvWakesHandles(hs[..k]);
      HandlesConcat(RecvWakesOf(hs[..k]), [WakeRecv(hs[k])]);
      OneWake(WakeRecv(hs[k]));
    }
  }

  lemma {:induction false} BlockedAppend<T>(ws: seq<SendWaiter<T>>, w: SendWaiter<T>)
    ensures Blocked(ws + [w]) == Blocked(ws) + [w.handle]
  {
    if ws == [] {
      assert ws + [w] == [w] && [w][1..] == [];
    } else {
      assert (ws + [w])[1..] == ws[1..] + [w];
      BlockedAppend(ws[1..], w);
    }
  }

  lemma {:induction false} SendWakesHandles<T>(ws: seq<SendWaiter<T>>)
    ensures SendHandles(SendWakesOf(ws)) == Blocked(ws) && RecvHandles(SendWakesOf(ws)) == []
  {
    hide RecvHandles, SendHandles;
    if ws == [] {
      NoWakes(SendWakesOf(ws));
    } else {
      var k := |ws| - 1;
      SendWakesHandles(ws[..k]);
      HandlesConcat(SendWakesOf(ws[..k]), [WakeSend(ws[k].handle)]);
      OneWake(WakeSend(ws[k].handle));
      BlockedAppend(ws[..k], ws[k]);
      assert ws == ws[..k] + [ws[k]];
    }
  }

  /** Posting the longest waiting receiver leaves the line of receivers as it was. */
  lemma {:induction false} WakeReceiverKeeps<T>(c: Chan<T>)
    ensures Receivers(WakeNextReceiver(c)) == Receivers(c) && Senders(WakeNextReceiver(c)) == Senders(c)
  {
    hide RecvHandles, SendHandles, Blocked;
    if c.recvWaiters == [] {
    } else {
      var w := WakeRecv(c.recvWaiters[0]);
      HandlesConcat(c.posted, [w]);
      OneWake(w);
      assert c.recvWaiters == [w.handle] + c.recvWaiters[1..];
      Assoc(RecvHandles(c.posted), [w.handle], c.recvWaiters[1..]);
    }
  }

  /** A blocked sender that is served moves to the posted ones, at the front of the line. */
  lemma {:induction false} ServeKeeps<T>(c: Chan<T>, d: Chan<T>)
    requires c.sendWaiters != []
    requires d == c.(posted := c.posted + [WakeSend(c.sendWaiters[0].handle)], sendWaiters := c.sendWaiters[1..])
    ensures Receivers(d) == Receivers(c) && Senders(d) == Senders(c)
  {
    hide RecvHandles, SendHandles;
    var w := WakeSend(c.sendWaiters[0].handle);
    HandlesConcat(c.posted, [w]);
    OneWake(w);
    Assoc(SendHandles(c.posted), [w.handle], Blocked(c.sendWaiters[1..]));
  }

  lemma {:induction false} WakeSenderKeeps<T>(c: Chan<T>)
    ensures Receivers(WakeNextSender(c)) == Receivers(c) && Senders(WakeNextSender(c)) == Senders(c)
  {
    hide RecvHandles, SendHandles, Blocked;
    if c.sendWaiters == [] || |c.buffer| >= c.capacity {
    } else {
      var w := c.sendWaiters[0];
      var f := c.(buffer := c.buffer + [w.value], sent := c.sent + {w.handle});
      var d := WakeNextReceiver(f);
      WakeReceiverKeeps(f);
      var g := d.(posted := d.posted + [WakeSend(w.handle)], sendWaiters := d.sendWaiters[1..]);
      ServeKeeps(d, g);
      assert WakeNextSender(c) == g;
    }
  }

  lemma {:induction false} TakeKeeps<T>(c: Chan<T>)
    requires c.buffer != []
    ensures Receivers(Take(c)) == Receivers(c) && Senders(Take(c)) == Senders(c)
  {
    WakeSenderKeeps(c.(buffer := c.buffer[1..], delivered := c.delivered + [c.buffer[0]]));
  }

  lemma {:induction false} CloseKeeps<T>(c: Chan<T>)
    ensures Receivers(Apply(c, Close)) == Receivers(c) && Senders(Apply(c, Close)) == Senders(c)
  {
    var r, s := RecvWakesOf(c.recvWaiters), SendWakesOf(c.sendWaiters);
    HandlesConcat(c.posted + r, s);
    HandlesConcat(c.posted, r);
    RecvWakesHandles(c.recvWaiters);
    SendWakesHandles(c.sendWaiters);
  }

  lemma {:induction false} PushKeeps<T>(c: Chan<T>, v: T)
    ensures Receivers(Push(c, v)) == Receivers(c) && Senders(Push(c, v)) == Senders(c)
  {
    WakeReceiverKeeps(c.(buffer := c.buffer + [v], issued := c.issued + [v]));
  }

  lemma {:induction false} RunKeeps<T>(c: Chan<T>)
    requires Enabled(c, RunPosted)
    ensures Receivers(c) == RecvResumes(c, RunPosted) + Receivers(Apply(c, RunPosted))
    ensures Senders(c) == SendResumes(c, RunPosted) + Senders(Apply(c, RunPosted))
  {
    hide Take, RecvHandles, SendHandles, Blocked;
    var d := c.(posted := c.posted[1..]);
    PopHandles(c.posted);
    if c.posted[0].WakeRecv? && c.buffer != [] { TakeKeeps(d); }
    Assoc(RecvResumes(c, RunPosted), RecvHandles(d.posted), d.recvWaiters);
    Assoc(SendResumes(c, RunPosted), SendHandles(d.posted), Blocked(d.sendWaiters));
  }

  /** Every event: who was suspended, then who suspends now, are who is resumed now, then who is suspended after it. */
  lemma {:induction false} StepHandles<T>(c: Chan<T>, e: Event<T>)
    requires Enabled(c, e)
    ensures Receivers(c) + RecvSuspends(c, e) == RecvResumes(c, e) + Receivers(Apply(c, e))
    ensures Senders(c) + SendSuspends(c, e) == SendResumes(c, e) + Senders(Apply(c, e))
  {
    hide Take, Push, RecvHandles, SendHandles, Blocked;
    match e
    case TrySend(v) => PushKeeps(c, v);
    case Send(h, v) =>
      PushKeeps(c, v);
      BlockedAppend(c.sendWaiters, SendWaiter(h, v));
      Assoc(SendHandles(c.posted), Blocked(c.sendWaiters), [h]);
    case TryRecv => if c.buffer != [] { TakeKeeps(c); }
    case Recv(h) =>
      if c.buffer != [] { TakeKeeps(c); }
      Assoc(RecvHandles(c.posted), c.recvWaiters, [h]);
    case Close => CloseKeeps(c);
    case RunPosted => RunKeeps(c);
  }

  lemma {:induction false} PopHandles(q: seq<Wake>)
    requires q != []
    ensures RecvHandles(q) == (if q[0].WakeRecv? then [q[0].handle] else []) + RecvHandles(q[1..])
    ensures SendHandles(q) == (if q[0].WakeSend? then [q[0].handle] else []) + SendHandles(q[1..])
  {}

  // Runs

  /** The receivers that suspend in a run, in order; then the senders; then those resumed. */
  function RecvSuspended<T>(c: Chan<T>, es: seq<Event<T>>): seq<nat>
    requires IsRun(c, es)
    decreases |es|
  {
    if es == [] then [] else RecvSuspends(c, es[0]) + RecvSuspended(Apply(c, es[0]), es[1..])
  }

  function SendSuspended<T>(c: Chan<T>, es: seq<Event<T>>): seq<nat>
    requires IsRun(c, es)
    decreases |es|
  {
    if es == [] then [] else SendSuspends(c, es[0]) + SendSuspended(Apply(c, es[0]), es[1..])
  }

  function RecvResumed<T>(c: Chan<T>, es: seq<Event<T>>): seq<nat>
    requires IsRun(c, es)
    decreases |es|
  {
    if es == [] then [] else RecvResumes(c, es[0]) + RecvResumed(Apply(c, es[0]), es[1..])
  }

  function SendResumed<T>(c: Chan<T>, es: seq<Event<T>>): seq<nat>
    requires IsRun(c, es)
    decreases |es|
  {
    if es == [] then [] else SendResumes(c, es[0]) + SendResumed(Apply(c, es[0]), es[1..])
  }

  /** A line from which the front leaves and to which the back is added, in two stages. */
  lemma {:induction false} Line(r0: seq<nat>, s0: seq<nat>, m0: seq<nat>,
                                r1: seq<nat>, s1: seq<nat>, m1: seq<nat>, r2: seq<nat>)
    requires r0 + s0 == m0 + r1 && r1 + s1 == m1 + r2
    ensures r0 + (s0 + s1) == (m0 + m1) + r2
  {
    Assoc(r0, s0, s1);
    Assoc(m0, r1, s1);
    Assoc(m0, m1, r2);
  }

  lemma {:induction false} RunHandles<T>(c: Chan<T>, es: seq<Event<T>>)
    requires IsRun(c, es)
    ensures Receivers(c) + RecvSuspended(c, es) == RecvResumed(c, es) + Receivers(Exec(c, es))
    ensures Senders(c) + SendSuspended(c, es) == SendResumed(c, es) + Senders(Exec(c, es))
    decreases |es|
  {
    hide Receivers, Senders, Apply, Enabled, RecvSuspends, SendSuspends, RecvResumes, SendResumes;
    if es == [] {
    } else {
      var d, rest := Apply(c, es[0]), es[1..];
      StepHandles(c, es[0]);
      RunHandles(d, rest);
      Line(Receivers(c), RecvSuspends(c, es[0]), RecvResumes(c, es[0]), Receivers(d),
           RecvSuspended(d, rest), RecvResumed(d, rest), Receivers(Exec(c, es)));
      Line(Senders(c), SendSuspends(c, es[0]), SendResumes(c, es[0]), Senders(d),
           SendSuspended(d, rest), SendResumed(d, rest), Senders(Exec(c, es)));
    }
  }

  /**
   Nobody is forgotten, in any run: the coroutines that suspended to receive are, in this order, those
   resumed, those whose resumption is posted, and those still waiting; and so for the senders.
   */
  lemma {:induction false} NobodyIsForgotten<T>(capacity: nat, es: seq<Event<T>>)
    requires IsRun(Start(capacity), es)
    ensures var c := Exec(Start(capacity), es);
            && RecvSuspended(Start(capacity), es)
               == RecvResumed(Start(capacity), es) + RecvHandles(c.posted) + c.recvWaiters
            && SendSuspended(Start(capacity), es)
               == SendResumed(Start(capacity), es) + SendHandles(c.posted) + Blocked(c.sendWaiters)
  {
    hide IsRun, Exec, RecvSuspended, SendSuspended, RecvResumed, SendResumed;
    var c0 := Start<T>(capacity);
    var c := Exec(c0, es);
    RunHandles(c0, es);
    NobodyAtStart<T>(capacity);
    assert [] + RecvSuspended(c0, es) == RecvSuspended(c0, es) && [] + SendSuspended(c0, es) == SendSuspended(c0, es);
    Assoc(RecvResumed(c0, es), RecvHandles(c.posted), c.recvWaiters);
    Assoc(SendResumed(c0, es), SendHandles(c.posted), Blocked(c.sendWaiters));
  }

  lemma {:induction false} NobodyAtStart<T>(capacity: nat)
    ensures Receivers(Start<T>(capacity)) == [] && Senders(Start<T>(capacity)) == []
  {}

  /** On a closed channel the loop resumes everybody who is posted, in order, and then has nothing left to do. */
  lemma {:induction false} ClosedDrains<T>(c: Chan<T>)
    requires Inv(c) && c.closed
    ensures IsRun(c, Repeat(|c.posted|))
    ensures var d := Exec(c, Repeat(|c.posted|)); d.posted == [] && d.closed && d.recvWaiters == [] && d.sendWaiters == []
    decreases |c.posted|
  {
    if c.posted == [] {
    } else {
      var d := Apply(c, RunPosted);
      StepInv(c, RunPosted);
      assert |d.posted| == |c.posted| - 1;
      ClosedDrains(d);
      assert Repeat<T>(|c.posted|)[1..] == Repeat(|d.posted|);
    }
  }

  /** After close everybody returns: the loop alone resumes every coroutine that is still suspended, each in its turn. */
  lemma {:induction false} AfterCloseEverybodyReturns<T>(capacity: nat, es: seq<Event<T>>)
    requires IsRun(Start(capacity), es) && Exec(Start(capacity), es).closed
    ensures var c := Exec(Start(capacity), es);
            var drain := Repeat<T>(|c.posted|);
            && IsRun(c, drain)
            && RecvSuspended(Start(capacity), es) == RecvResumed(Start(capacity), es) + RecvResumed(c, drain)
            && SendSuspended(Start(capacity), es) == SendResumed(Start(capacity), es) + SendResumed(c, drain)
  {
    hide IsRun, Exec, RecvSuspended, SendSuspended, RecvResumed, SendResumed, Repeat, Inv, Orderly;
    hide RecvHandles, SendHandles, Blocked;
    var c := Exec(Start(capacity), es);
    StartInv<T>(capacity);
    RunInv(Start(capacity), es);
    NobodyIsForgotten(capacity, es);
    DrainResumes(c);
    ClosedWaits(c);
  }

  lemma {:induction false} DrainResumes<T>(c: Chan<T>)
    requires Inv(c) && c.closed
    ensures IsRun(c, Repeat(|c.posted|))
    ensures RecvResumed(c, Repeat(|c.posted|)) == RecvHandles(c.posted)
    ensures SendResumed(c, Repeat(|c.posted|)) == SendHandles(c.posted)
  {
    hide IsRun, Exec, RecvSuspended, SendSuspended, RecvResumed, SendResumed, Repeat, Inv, RecvHandles, SendHandles;
    ClosedDrains(c);
    var drain := Repeat<T>(|c.posted|);
    RunHandles(c, drain);
    NoSuspension(c, |c.posted|);
    EmptyLines(Exec(c, drain));
    ClosedWaits(c);
    assert Receivers(c) + [] == RecvHandles(c.posted) && Senders(c) + [] == SendHandles(c.posted);
    assert RecvResumed(c, drain) + [] == RecvResumed(c, drain) && SendResumed(c, drain) + [] == SendResumed(c, drain);
  }

  lemma {:induction false} ClosedWaits<T>(c: Chan<T>)
    requires Inv(c) && c.closed
    ensures c.recvWaiters == [] && c.sendWaiters == [] && Blocked(c.sendWaiters) == []
  {}

  lemma {:induction false} EmptyLines<T>(c: Chan<T>)
    requires c.posted == [] && c.recvWaiters == [] && c.sendWaiters == []
    ensures Receivers(c) == [] && Senders(c) == []
  {}

  lemma {:induction false} NoSuspension<T>(c: Chan<T>, n: nat)
    requires IsRun(c, Repeat(n))
    ensures RecvSuspended(c, Repeat(n)) == [] && SendSuspended(c, Repeat(n)) == []
    decreases n
  {
    if n == 0 {
    } else {
      assert Repeat<T>(n)[1..] == Repeat(n - 1);
      NoSuspension(Apply(c, RunPosted), n - 1);
    }
  }

  // Nobody is in the lines twice.

  predicate Suspends<T>(c: Chan<T>, h: nat) { h in Receivers(c) || h in Senders(c) }

  ghost predicate Once<T>(c: Chan<T>) { forall h :: multiset(Receivers(c))[h] + multiset(Senders(c))[h] <= 1 }

  lemma {:induction false} PostedHandle(q: seq<Wake>, h: nat)
    ensures h in RecvHandles(q) ==> WakeRecv(h) in q
    ensures h in SendHandles(q) ==> WakeSend(h) in q
  {
    if q == [] {
    } else {
      PostedHandle(q[1..], h);
      assert q == [q[0]] + q[1..];
    }
  }

  lemma {:induction false} BlockedHandle<T>(ws: seq<SendWaiter<T>>, h: nat)
    requires h in Blocked(ws)
    ensures exists i :: 0 <= i < |ws| && ws[i].handle == h
  {
    if ws[0].handle == h {
    } else {
      BlockedHandle(ws[1..], h);
      var i :| 0 <= i < |ws[1..]| && ws[1..][i].handle == h;
      assert ws[i + 1].handle == h;
    }
  }

  /** Whoever is in a line is suspended, so cannot start another call. */
  lemma {:induction false} InLineIsSuspended<T>(c: Chan<T>, h: nat)
    requires Suspends(c, h)
    ensures Suspended(c, h)
  {
    hide RecvHandles, SendHandles, Blocked;
    PostedHandle(c.posted, h);
    if h in Blocked(c.sendWaiters) { BlockedHandle(c.sendWaiters, h); }
  }

  lemma {:induction false} LineCount(r0: seq<nat>, s0: seq<nat>, m0: seq<nat>, r1: seq<nat>, h: nat)
    requires r0 + s0 == m0 + r1
    ensures multiset(r1)[h] <= multiset(r0)[h] + multiset(s0)[h]
  {
    assert multiset(r0 + s0) == multiset(r0) + multiset(s0);
    assert multiset(m0 + r1) == multiset(m0) + multiset(r1);
    assert multiset(r0 + s0)[h] == multiset(m0 + r1)[h];
  }

  lemma {:induction false} StepOnce<T>(c: Chan<T>, e: Event<T>)
    requires Enabled(c, e) && Once(c)
    ensures Once(Apply(c, e))
  {
    hide Receivers, Senders, Apply;
    var d := Apply(c, e);
    StepHandles(c, e);
    forall h ensures multiset(Receivers(d))[h] + multiset(Senders(d))[h] <= 1 {
      LineCount(Receivers(c), RecvSuspends(c, e), RecvResumes(c, e), Receivers(d), h);
      LineCount(Senders(c), SendSuspends(c, e), SendResumes(c, e), Senders(d), h);
      if Suspends(c, h) { InLineIsSuspended(c, h); }
    }
  }

  /** In every run, each coroutine is at most once in the two lines, so it is never resumed twice for one suspension. */
  lemma {:induction false} NobodyIsResumedTwice<T>(capacity: nat, es: seq<Event<T>>)
    requires IsRun(Start(capacity), es)
    ensures Once(Exec(Start(capacity), es))
  {
    hide Once;
    OnceAtStart<T>(capacity);
    RunOnce(Start(capacity), es);
  }

  lemma {:induction false} OnceAtStart<T>(capacity: nat)
    ensures Once(Start<T>(capacity))
  {
    hide Receivers, Senders;
    NobodyAtStart<T>(capacity);
  }

  lemma {:induction false} RunOnce<T>(c: Chan<T>, es: seq<Event<T>>)
    requires Once(c) && IsRun(c, es)
    ensures Once(Exec(c, es))
    decreases |es|
  {
    hide Once, Apply, Enabled;
    if es == [] {
    } else {
      StepOnce(c, es[0]);
      RunOnce(Apply(c, es[0]), es[1..]);
    }
  }

  // The flag that tells a blocked sender that its value was accepted

  /** No sender that still waits is marked as served. */
  ghost predicate Unserved<T>(c: Chan<T>) { forall h :: h in Blocked(c.sendWaiters) ==> h !in c.sent }

  lemma {:induction false} FirstIsAlone<T>(c: Chan<T>)
    requires Once(c) && c.sendWaiters != []
    ensures c.sendWaiters[0].handle !in Blocked(c.sendWaiters[1..])
  {
    hide SendHandles, RecvHandles;
    var h, rest, posted := c.sendWaiters[0].handle, Blocked(c.sendWaiters[1..]), SendHandles(c.posted);
    assert Senders(c) == posted + ([h] + rest);
    assert multiset(Senders(c)) == multiset(posted) + (multiset{h} + multiset(rest));
    assert multiset(Senders(c))[h] <= 1;
  }

  lemma {:induction false} WakeSenderUnserved<T>(c: Chan<T>)
    requires Once(c) && Unserved(c)
    ensures Unserved(WakeNextSender(c))
  {
    if c.sendWaiters != [] && |c.buffer| < c.capacity { FirstIsAlone(c); }
  }

  lemma {:induction false} TakeUnserved<T>(c: Chan<T>)
    requires Once(c) && Unserved(c) && c.buffer != []
    ensures Unserved(Take(c))
  {
    hide Once;
    var d := c.(buffer := c.buffer[1..], delivered := c.delivered + [c.buffer[0]]);
    SameLines(c, d);
    WakeSenderUnserved(d);
  }

  lemma {:induction false} SameLines<T>(c: Chan<T>, d: Chan<T>)
    requires Once(c) && c.posted == d.posted && c.recvWaiters == d.recvWaiters && c.sendWaiters == d.sendWaiters
    ensures Once(d)
  {
    assert Receivers(d) == Receivers(c) && Senders(d) == Senders(c);
    forall h ensures multiset(Receivers(d))[h] + multiset(Senders(d))[h] <= 1 {
      assert multiset(Receivers(c))[h] + multiset(Senders(c))[h] <= 1;
    }
  }

  lemma {:induction false} PopOnce<T>(c: Chan<T>)
    requires Once(c) && c.posted != []
    ensures Once(c.(posted := c.posted[1..]))
  {
    hide RecvHandles, SendHandles, Blocked;
    var d := c.(posted := c.posted[1..]);
    PopHandles(c.posted);
    var r: seq<nat> := if c.posted[0].WakeRecv? then [c.posted[0].handle] else [];
    var s: seq<nat> := if c.posted[0].WakeSend? then [c.posted[0].handle] else [];
    Assoc(r, RecvHandles(d.posted), d.recvWaiters);
    Assoc(s, SendHandles(d.posted), Blocked(d.sendWaiters));
    assert Receivers(c) + [] == r + Receivers(d) && Senders(c) + [] == s + Senders(d);
    hide Receivers, Senders;
    forall h ensures multiset(Receivers(d))[h] + multiset(Senders(d))[h] <= 1 {
      assert multiset(Receivers(c))[h] + multiset(Senders(c))[h] <= 1;
      LineCount(Receivers(c), [], r, Receivers(d), h);
      LineCount(Senders(c), [], s, Senders(d), h);
    }
  }

  lemma {:induction false} StepUnserved<T>(c: Chan<T>, e: Event<T>)
    requires Enabled(c, e) && Once(c) && Unserved(c)
    ensures Unserved(Apply(c, e))
  {
    hide Take, Once;
    match e
    case Send(h, v) => BlockedAppend(c.sendWaiters, SendWaiter(h, v));
    case TryRecv => if c.buffer != [] { TakeUnserved(c); }
    case Recv(h) => if c.buffer != [] { TakeUnserved(c); }
    case RunPosted =>
      PopOnce(c);
      if c.posted[0].WakeRecv? && c.buffer != [] { TakeUnserved(c.(posted := c.posted[1..])); }
    case _ =>
  }

  lemma {:induction false} RunUnserved<T>(c: Chan<T>, es: seq<Event<T>>)
    requires Once(c) && Unserved(c) && IsRun(c, es)
    ensures Unserved(Exec(c, es))
    decreases |es|
  {
    hide Once, Unserved, Apply, Enabled;
    if es == [] {
    } else {
      StepOnce(c, es[0]);
      StepUnserved(c, es[0]);
      RunUnserved(Apply(c, es[0]), es[1..]);
    }
  }

  /** In every run, a sender that still waits is not marked as served: the mark is that of its own value. */
  lemma {:induction false} BlockedAreUnserved<T>(capacity: nat, es: seq<Event<T>>)
    requires IsRun(Start(capacity), es)
    ensures Unserved(Exec(Start(capacity), es))
  {
    hide Once;
    OnceAtStart<T>(capacity);
    RunUnserved(Start(capacity), es);
  }

  // The order in which both sides are posted

  /** A refill resumes the receiver of the new value before the sender whose value it is. */
  lemma {:induction false} ReceiverBeforeSender<T>(c: Chan<T>)
    requires c.sendWaiters != [] && c.recvWaiters != [] && |c.buffer| < c.capacity
    ensures WakeNextSender(c).posted == c.posted + [WakeRecv(c.recvWaiters[0]), WakeSend(c.sendWaiters[0].handle)]
  {}

  /** Close resumes all waiting receivers before all blocked senders. */
  lemma {:induction false} ReceiversBeforeSenders<T>(c: Chan<T>, i: nat, j: nat)
    requires !c.closed && i < |c.recvWaiters| && j < |c.sendWaiters|
    ensures var posted, n, m := Apply(c, Close).posted, |c.posted|, |c.recvWaiters|;
            && |posted| == n + m + |c.sendWaiters|
            && posted[n + i] == WakeRecv(c.recvWaiters[i]) && posted[n + m + j] == WakeSend(c.sendWaiters[j].handle)
  {
    RecvWakeAt(c.recvWaiters, i);
    SendWakeAt(c.sendWaiters, j);
  }

  lemma {:induction false} RecvWakeAt(hs: seq<nat>, i: nat)
    requires i < |hs|
    ensures |RecvWakesOf(hs)| == |hs| && RecvWakesOf(hs)[i] == WakeRecv(hs[i])
  {
    var k := |hs| - 1;
    if k == 0 {
      assert hs[..0] == [];
    } else {
      RecvWakeAt(hs[..k], if i < k then i else 0);
    }
  }

  lemma {:induction false} SendWakeAt<T>(ws: seq<SendWaiter<T>>, i: nat)
    requires i < |ws|
    ensures |SendWakesOf(ws)| == |ws| && SendWakesOf(ws)[i] == WakeSend(ws[i].handle)
  {
    var k := |ws| - 1;
    if k == 0 {
      assert ws[..0] == [];
    } else {
      SendWakeAt(ws[..k], if i < k then i else 0);
    }
  }
}
