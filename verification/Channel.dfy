/**
 The bounded channel (include/pman/async/channel.hpp) on one event loop.

 A coroutine runs without interruption until it suspends; a wake-up is posted to the loop's FIFO
 queue and runs later.  Coroutine handles are numbers, elements a copyable type.
 */
module Channel {
  import opened Wrappers

  datatype SendWaiter<T> = SendWaiter(handle: nat, value: T)

  /** A posted resumption of a suspended receiver or sender. */
  datatype Wake = WakeRecv(handle: nat) | WakeSend(handle: nat)

  /**
   The channel, the loop's queue and the history: `issued` are the values of all sends that were
   not refused on the spot, `delivered` those received, `dropped` those still blocked at close.
   */
  datatype Chan<T> = Chan(
    capacity: nat, closed: bool, buffer: seq<T>, recvWaiters: seq<nat>, sendWaiters: seq<SendWaiter<T>>,
    sent: set<nat>, posted: seq<Wake>, issued: seq<T>, delivered: seq<T>, dropped: seq<T>)

  datatype Event<T> =
    | TrySend(value: T)
    | Send(handle: nat, value: T)
    | TryRecv
    | Recv(handle: nat)
    | Close
    | RunPosted

  function Start<T>(capacity: nat): Chan<T> { Chan(capacity, false, [], [], [], {}, [], [], [], []) }

  function Values<T>(ws: seq<SendWaiter<T>>): (vs: seq<T>)
    ensures |vs| == |ws|
  {
    if ws == [] then [] else [ws[0].value] + Values(ws[1..])
  }

  /** The number of posted resumptions of receivers. */
  function RecvWakes(q: seq<Wake>): nat {
    if q == [] then 0 else RecvWakes(q[..|q| - 1]) + (if q[|q| - 1].WakeRecv? then 1 else 0)
  }

  function WakeNextReceiver<T>(c: Chan<T>): Chan<T> {
    if c.recvWaiters == [] then c
    else c.(recvWaiters := c.recvWaiters[1..], posted := c.posted + [WakeRecv(c.recvWaiters[0])])
  }

  function WakeNextSender<T>(c: Chan<T>): Chan<T> {
    if c.sendWaiters == [] || |c.buffer| >= c.capacity then c
    else
      var w := c.sendWaiters[0];
      var c' := WakeNextReceiver(
        c.(sendWaiters := c.sendWaiters[1..], buffer := c.buffer + [w.value], sent := c.sent + {w.handle}));
      c'.(posted := c'.posted + [WakeSend(w.handle)])
  }

  function Push<T>(c: Chan<T>, value: T): Chan<T> {
    WakeNextReceiver(c.(buffer := c.buffer + [value], issued := c.issued + [value]))
  }

  function Take<T>(c: Chan<T>): Chan<T>
    requires c.buffer != []
  {
    WakeNextSender(c.(buffer := c.buffer[1..], delivered := c.delivered + [c.buffer[0]]))
  }

  /** A handle that is waiting or about to be resumed cannot start another operation. */
  predicate Suspended<T>(c: Chan<T>, h: nat) {
    || h in c.recvWaiters
    || (exists i :: 0 <= i < |c.sendWaiters| && c.sendWaiters[i].handle == h)
    || WakeRecv(h) in c.posted || WakeSend(h) in c.posted
  }

  predicate Enabled<T>(c: Chan<T>, e: Event<T>) {
    match e
    case Send(h, _) => !Suspended(c, h)
    case Recv(h) => !Suspended(c, h)
    case RunPosted => c.posted != []
    case _ => true
  }

  function RecvWakesOf(hs: seq<nat>): seq<Wake> {
    if hs == [] then [] else RecvWakesOf(hs[..|hs| - 1]) + [WakeRecv(hs[|hs| - 1])]
  }

  function SendWakesOf<T>(ws: seq<SendWaiter<T>>): seq<Wake> {
    if ws == [] then [] else SendWakesOf(ws[..|ws| - 1]) + [WakeSend(ws[|ws| - 1].handle)]
  }

  function Apply<T>(c: Chan<T>, e: Event<T>): Chan<T>
    requires Enabled(c, e)
  {
    match e
    case TrySend(v) => if c.closed || |c.buffer| >= c.capacity then c else Push(c, v)
    case Send(h, v) =>
      if c.closed then c
      else if |c.buffer| < c.capacity then Push(c, v)
      else c.(sendWaiters := c.sendWaiters + [SendWaiter(h, v)], sent := c.sent - {h}, issued := c.issued + [v])
    case TryRecv => if c.buffer == [] then c else Take(c)
    case Recv(h) =>
      if c.buffer != [] then Take(c)
      else if c.closed then c
      else c.(recvWaiters := c.recvWaiters + [h])
    case Close =>
      if c.closed then c
      else c.(closed := true, posted := c.posted + RecvWakesOf(c.recvWaiters) + SendWakesOf(c.sendWaiters),
              recvWaiters := [], sendWaiters := [], dropped := Values(c.sendWaiters))
    case RunPosted =>
      var c' := c.(posted := c.posted[1..]);
      if c.posted[0].WakeRecv? && c.buffer != [] then Take(c') else c'
  }

  /** The event ends a receive (rather than suspending it). */
  predicate EndsReceive<T>(c: Chan<T>, e: Event<T>) {
    match e
    case Recv(_) => c.buffer != [] || c.closed
    case RunPosted => c.posted != [] && c.posted[0].WakeRecv?
    case _ => false
  }

  /** What a receive that ends here returns. */
  function Received<T>(c: Chan<T>): Option<T> { if c.buffer == [] then None else Some(c.buffer[0]) }

  /** Order and conservation of values. */
  ghost predicate Orderly<T>(c: Chan<T>) {
    && |c.buffer| <= c.capacity
    && (c.sendWaiters != [] ==> |c.buffer| == c.capacity)
    && c.delivered + c.buffer + Values(c.sendWaiters) + c.dropped == c.issued
    && (c.closed ==> c.recvWaiters == [] && c.sendWaiters == [])
    && (!c.closed ==> c.dropped == [])
    && (!c.closed ==> forall h :: WakeSend(h) in c.posted ==> h in c.sent)
  }

  ghost predicate Inv<T>(c: Chan<T>) {
    Orderly(c) && (c.recvWaiters != [] ==> |c.buffer| <= RecvWakes(c.posted))
  }

  lemma {:induction false} ValuesAppend<T>(ws: seq<SendWaiter<T>>, w: SendWaiter<T>)
    ensures Values(ws + [w]) == Values(ws) + [w.value]
  {
    if ws == [] {
      assert ws + [w] == [w];
    } else {
      assert (ws + [w])[1..] == ws[1..] + [w];
      ValuesAppend(ws[1..], w);
    }
  }

  lemma {:induction false} RecvWakesAppend(q: seq<Wake>, w: Wake)
    ensures RecvWakes(q + [w]) == RecvWakes(q) + (if w.WakeRecv? then 1 else 0)
  {
    assert (q + [w])[..|q + [w]| - 1] == q;
  }

  lemma {:induction false} RecvWakesPop(q: seq<Wake>)
    requires q != []
    ensures RecvWakes(q[1..]) == RecvWakes(q) - (if q[0].WakeRecv? then 1 else 0)
  {
    var k := |q| - 1;
    if k == 0 {
      assert q[..0] == [] && q[1..] == [];
    } else {
      assert q[1..][..k - 1] == q[..k][1..];
      RecvWakesPop(q[..k]);
    }
  }

  /** Putting one more value into the buffer: the oldest waiting receiver is woken for it. */
  lemma {:induction false} WakeReceiverInv<T>(c: Chan<T>)
    requires c.recvWaiters != [] ==> |c.buffer| <= RecvWakes(c.posted) + 1
    ensures var c' := WakeNextReceiver(c);
            && (c'.recvWaiters != [] ==> |c'.buffer| <= RecvWakes(c'.posted))
            && RecvWakes(c.posted) <= RecvWakes(c'.posted)
            && (forall h :: WakeSend(h) in c'.posted ==> WakeSend(h) in c.posted)
  {
    if c.recvWaiters != [] { RecvWakesAppend(c.posted, WakeRecv(c.recvWaiters[0])); }
  }

  lemma {:induction false} PushInv<T>(c: Chan<T>, v: T)
    requires Inv(c) && !c.closed && |c.buffer| < c.capacity
    ensures Inv(Push(c, v))
  {
    WakeReceiverInv(c.(buffer := c.buffer + [v], issued := c.issued + [v]));
    assert c.delivered + (c.buffer + [v]) + [] + [] == c.issued + [v];
  }

  lemma {:induction false} TakeKeepsOrder<T>(delivered: seq<T>, buffer: seq<T>, rest: seq<T>, dropped: seq<T>)
    requires buffer != []
    ensures (delivered + [buffer[0]]) + buffer[1..] + rest + dropped == delivered + buffer + rest + dropped
    ensures rest != [] ==>
              (delivered + [buffer[0]]) + (buffer[1..] + [rest[0]]) + rest[1..] + dropped
              == delivered + buffer + rest + dropped
  {
    assert buffer == [buffer[0]] + buffer[1..];
    if rest != [] { assert rest == [rest[0]] + rest[1..]; }
  }

  lemma {:induction false} RefillInv<T>(c: Chan<T>)
    requires Orderly(c) && c.buffer != [] && c.sendWaiters != []
    requires c.recvWaiters != [] ==> |c.buffer| - 1 <= RecvWakes(c.posted)
    ensures Inv(Take(c))
  {
    var w := c.sendWaiters[0];
    var f := c.(delivered := c.delivered + [c.buffer[0]], sendWaiters := c.sendWaiters[1..],
                buffer := c.buffer[1..] + [w.value], sent := c.sent + {w.handle});
    WakeReceiverInv(f);
    RecvWakesAppend(WakeNextReceiver(f).posted, WakeSend(w.handle));
    assert Values(c.sendWaiters)[1..] == Values(c.sendWaiters[1..]);
    TakeKeepsOrder(c.delivered, c.buffer, Values(c.sendWaiters), c.dropped);
  }

  lemma {:induction false} TakeInv<T>(c: Chan<T>)
    requires Orderly(c) && c.buffer != []
    requires c.recvWaiters != [] ==> |c.buffer| - 1 <= RecvWakes(c.posted)
    ensures Inv(Take(c))
  {
    if c.sendWaiters != [] {
      RefillInv(c);
    } else {
      TakeKeepsOrder(c.delivered, c.buffer, Values(c.sendWaiters), c.dropped);
    }
  }

  lemma {:induction false} RunPostedInv<T>(c: Chan<T>)
    requires Inv(c) && c.posted != []
    ensures Inv(Apply(c, RunPosted))
  {
    RecvWakesPop(c.posted);
    var c' := c.(posted := c.posted[1..]);
    if c.posted[0].WakeRecv? && c.buffer != [] { TakeInv(c'); }
  }

  /** Every event keeps order, capacity and the accounting of wake-ups. */
  lemma {:induction false} StepInv<T>(c: Chan<T>, e: Event<T>)
    requires Inv(c) && Enabled(c, e)
    ensures Inv(Apply(c, e))
  {
    match e
    case TrySend(v) =>
      if !c.closed && |c.buffer| < c.capacity { PushInv(c, v); }
    case Send(h, v) =>
      if !c.closed {
        if |c.buffer| < c.capacity {
          PushInv(c, v);
        } else {
          ValuesAppend(c.sendWaiters, SendWaiter(h, v));
          assert c.delivered + c.buffer + (Values(c.sendWaiters) + [v]) + [] == c.issued + [v];
        }
      }
    case TryRecv => if c.buffer != [] { TakeInv(c); }
    case Recv(h) => if c.buffer != [] { TakeInv(c); }
    case Close =>
    case RunPosted => RunPostedInv(c);
  }

  predicate IsRun<T>(c: Chan<T>, es: seq<Event<T>>)
    decreases |es|
  {
    es == [] || (Enabled(c, es[0]) && IsRun(Apply(c, es[0]), es[1..]))
  }

  function Exec<T>(c: Chan<T>, es: seq<Event<T>>): Chan<T>
    requires IsRun(c, es)
    decreases |es|
  {
    if es == [] then c else Exec(Apply(c, es[0]), es[1..])
  }

  lemma {:induction false} StartInv<T>(capacity: nat)
    ensures Inv<T>(Start(capacity))
  {}

  lemma {:induction false} RunInv<T>(c: Chan<T>, es: seq<Event<T>>)
    requires Inv(c) && IsRun(c, es)
    ensures Inv(Exec(c, es))
    decreases |es|
  {
    if es == [] {
    } else {
      StepInv(c, es[0]);
      RunInv(Apply(c, es[0]), es[1..]);
    }
  }

  /**
   In every run: the buffer stays within capacity, senders block only while it is full, and what
   was delivered, then buffered, then blocked (or, after close, dropped) is exactly the sequence of
   values in the order their sends were issued.  While a receiver waits, every buffered value has
   a receiver wake-up on its way.
   */
  lemma {:induction false} ValuesKeepTheirOrder<T>(capacity: nat, es: seq<Event<T>>)
    requires IsRun(Start(capacity), es)
    ensures var c := Exec(Start(capacity), es);
            && |c.buffer| <= c.capacity
            && (c.sendWaiters != [] ==> |c.buffer| == c.capacity)
            && c.delivered + c.buffer + (if c.closed then c.dropped else Values(c.sendWaiters)) == c.issued
            && (c.recvWaiters != [] ==> |c.buffer| <= RecvWakes(c.posted))
  {
    RunInv(Start(capacity), es);
    var c := Exec(Start(capacity), es);
    assert c.delivered + c.buffer + Values(c.sendWaiters) + c.dropped
        == c.delivered + c.buffer + (Values(c.sendWaiters) + c.dropped);
    assert Values(c.sendWaiters) + c.dropped == if c.closed then c.dropped else Values(c.sendWaiters);
  }

  /** A send that does not block never overtakes a blocked one: it succeeds only if none is blocked. */
  lemma {:induction false} NoOvertaking<T>(capacity: nat, es: seq<Event<T>>, v: T)
    requires IsRun(Start(capacity), es)
    requires Apply(Exec(Start(capacity), es), TrySend(v)) != Exec(Start(capacity), es)
    ensures Exec(Start(capacity), es).sendWaiters == []
  {
    RunInv(Start(capacity), es);
  }

  /** A blocked sender that is resumed on an open channel has had its value accepted. */
  lemma {:induction false} ResumedSenderWasServed<T>(capacity: nat, es: seq<Event<T>>)
    requires IsRun(Start(capacity), es)
    requires var c := Exec(Start(capacity), es); !c.closed && c.posted != [] && c.posted[0].WakeSend?
    ensures var c := Exec(Start(capacity), es); c.posted[0].handle in c.sent
  {
    RunInv(Start(capacity), es);
    var c := Exec(Start(capacity), es);
    assert WakeSend(c.posted[0].handle) in c.posted;
  }

  /** What the sender that is resumed next returns. */
  predicate Reports<T>(c: Chan<T>)
    requires c.posted != [] && c.posted[0].WakeSend?
  {
    !c.closed && c.posted[0].handle in c.sent
  }

  /** A resumed sender reports failure if and only if the channel is closed, accepted or not. */
  lemma {:induction false} ResumedSendFailsExactlyIfClosed<T>(capacity: nat, es: seq<Event<T>>)
    requires IsRun(Start(capacity), es)
    requires var c := Exec(Start(capacity), es); c.posted != [] && c.posted[0].WakeSend?
    ensures Reports(Exec(Start(capacity), es)) <==> !Exec(Start(capacity), es).closed
  {
    if !Exec(Start(capacity), es).closed { ResumedSenderWasServed(capacity, es); }
  }

  /** So a close between acceptance and resumption makes a send report failure for a value that is delivered. */
  lemma {:induction false} AcceptedSendCanReportFailure<T>(v: T, w: T)
    ensures var es := [TrySend(v), Send(0, w), TryRecv, Close];
            && IsRun(Start(1), es)
            && var c := Exec(Start(1), es);
               && c.posted == [WakeSend(0)] && 0 in c.sent && !Reports(c)
               && IsRun(c, [RunPosted, TryRecv]) && Exec(c, [RunPosted, TryRecv]).delivered == [v, w]
  {
    hide IsRun, Exec;
    var c0 := Start<T>(1);
    var c1 := c0.(buffer := [v], issued := [v]);
    assert Apply(c0, TrySend(v)) == c1;
    var c2 := c1.(sendWaiters := [SendWaiter(0, w)], issued := [v, w]);
    assert Apply(c1, Send(0, w)) == c2;
    var c3 := c2.(sendWaiters := [], sent := {0}, buffer := [w], delivered := [v], posted := [WakeSend(0)]);
    assert Apply(c2, TryRecv) == c3;
    var c4 := c3.(closed := true);
    assert Apply(c3, Close) == c4;
    FourSteps(c0, TrySend(v), Send(0, w), TryRecv, Close);
    assert Apply(Apply(c4, RunPosted), TryRecv).delivered == [v, w];
    TwoSteps(c4, RunPosted, TryRecv);
  }

  lemma {:induction false} TwoSteps<T>(c: Chan<T>, a: Event<T>, b: Event<T>)
    requires Enabled(c, a) && Enabled(Apply(c, a), b)
    ensures IsRun(c, [a, b]) && Exec(c, [a, b]) == Apply(Apply(c, a), b)
  {
    hide Apply, Enabled;
    assert [a, b][1..] == [b] && [b][1..] == [];
    var c1 := Apply(c, a);
    assert IsRun(Apply(c1, b), []);
    assert IsRun(c1, [b]) && Exec(c1, [b]) == Exec(Apply(c1, b), []);
  }

  lemma {:induction false} FourSteps<T>(c: Chan<T>, a: Event<T>, b: Event<T>, d: Event<T>, e: Event<T>)
    requires Enabled(c, a) && Enabled(Apply(c, a), b)
    requires var c2 := Apply(Apply(c, a), b); Enabled(c2, d) && Enabled(Apply(c2, d), e)
    ensures IsRun(c, [a, b, d, e]) && Exec(c, [a, b, d, e]) == Apply(Apply(Apply(Apply(c, a), b), d), e)
  {
    hide Apply, Enabled;
    var c1, c2 := Apply(c, a), Apply(Apply(c, a), b);
    TwoSteps(c2, d, e);
    assert [b, d, e][1..] == [d, e] && [a, b, d, e][1..] == [b, d, e];
    assert IsRun(c1, [b, d, e]);
  }

  // End of stream

  /** The blocked senders whose values go to nobody that waits already. */
  function Spare<T>(c: Chan<T>): nat {
    if c.capacity == 0 || |c.sendWaiters| <= |c.recvWaiters| then 0 else |c.sendWaiters| - |c.recvWaiters|
  }

  /** Every posted receiver wake-up on the open channel is backed by a value, buffered or about to be. */
  predicate Backed<T>(c: Chan<T>) { c.closed || RecvWakes(c.posted) <= |c.buffer| + Spare(c) }

  /** Receiving directly here does not take a value that a woken receiver counts on. */
  predicate Fair<T>(c: Chan<T>, e: Event<T>) {
    (e.Recv? || e.TryRecv?) && !c.closed && c.buffer != [] ==> RecvWakes(c.posted) < |c.buffer| + Spare(c)
  }

  predicate IsFairRun<T>(c: Chan<T>, es: seq<Event<T>>)
    decreases |es|
  {
    es == [] || (Enabled(c, es[0]) && Fair(c, es[0]) && IsFairRun(Apply(c, es[0]), es[1..]))
  }

  /** Taking a value uses up one of the values that back the wake-ups, however the buffer is refilled. */
  lemma {:induction false} TakeBalance<T>(c: Chan<T>)
    requires Orderly(c) && !c.closed && c.buffer != []
    ensures var d := Take(c);
            !d.closed && |d.buffer| + Spare(d) - RecvWakes(d.posted) == |c.buffer| + Spare(c) - RecvWakes(c.posted) - 1
    ensures |Take(c).sendWaiters| <= |c.sendWaiters|
    ensures |Take(c).posted| + 3 * |Take(c).sendWaiters| <= |c.posted| + 3 * |c.sendWaiters|
  {
    if c.sendWaiters != [] {
      var w := c.sendWaiters[0];
      var f := c.(delivered := c.delivered + [c.buffer[0]], sendWaiters := c.sendWaiters[1..],
                  buffer := c.buffer[1..] + [w.value], sent := c.sent + {w.handle});
      if f.recvWaiters != [] { RecvWakesAppend(f.posted, WakeRecv(f.recvWaiters[0])); }
      RecvWakesAppend(WakeNextReceiver(f).posted, WakeSend(w.handle));
    }
  }

  /** From a state in which all wake-ups are backed, an event keeps them backed if and only if it is fair. */
  lemma {:induction false} BackedStaysExactlyIfFair<T>(c: Chan<T>, e: Event<T>)
    requires Inv(c) && Enabled(c, e) && Backed(c)
    ensures Backed(Apply(c, e)) <==> Fair(c, e)
  {
    if !c.closed {
      if e.RunPosted? {
        RecvWakesPop(c.posted);
        if c.posted[0].WakeRecv? && c.buffer != [] { TakeBalance(c.(posted := c.posted[1..])); }
      } else if e.TryRecv? || e.Recv? {
        if c.buffer != [] { TakeBalance(c); }
      } else if c.recvWaiters != [] {
        RecvWakesAppend(c.posted, WakeRecv(c.recvWaiters[0]));
      }
    }
  }

  lemma {:induction false} FairRunBacked<T>(c: Chan<T>, es: seq<Event<T>>)
    requires Inv(c) && Backed(c) && IsFairRun(c, es)
    ensures IsRun(c, es) && Inv(Exec(c, es)) && Backed(Exec(c, es))
    decreases |es|
  {
    if es == [] {
    } else {
      StepInv(c, es[0]);
      BackedStaysExactlyIfFair(c, es[0]);
      FairRunBacked(Apply(c, es[0]), es[1..]);
    }
  }

  lemma {:induction false} RecvWakesHead(q: seq<Wake>)
    requires q != [] && q[0].WakeRecv?
    ensures RecvWakes(q) > 0
  {
    RecvWakesPop(q);
  }

  /** The next posted callback would end a receive empty-handed although the channel is open. */
  predicate Starves<T>(c: Chan<T>) {
    !c.closed && EndsReceive(c, RunPosted) && c.buffer == []
  }

  lemma {:induction false} BackedDoesNotStarve<T>(c: Chan<T>)
    requires Orderly(c) && Backed(c)
    ensures !Starves(c)
  {
    if c.posted != [] && c.posted[0].WakeRecv? { RecvWakesHead(c.posted); }
  }

  /**
   End of stream: in a fair run a receive returns None only on a closed channel, and then every value that
   ever entered the buffer has been delivered.
   */
  lemma {:induction false} NoneMeansClosedAndDrained<T>(capacity: nat, es: seq<Event<T>>, e: Event<T>)
    requires IsFairRun(Start(capacity), es)
    requires IsRun(Start(capacity), es) && EndsReceive(Exec(Start(capacity), es), e)
    requires Received(Exec(Start(capacity), es)) == None
    ensures var c := Exec(Start(capacity), es);
            c.closed && c.buffer == [] && c.delivered + c.dropped == c.issued
  {
    FairRunBacked(Start(capacity), es);
    var c := Exec(Start(capacity), es);
    BackedDoesNotStarve(c);
    assert c.delivered + [] + [] + c.dropped == c.delivered + c.dropped;
  }

  // The law is exact.

  function Repeat<T>(n: nat): seq<Event<T>> { if n == 0 then [] else [RunPosted] + Repeat(n - 1) }

  lemma {:induction false} UnbackedStep<T>(c: Chan<T>)
    requires Inv(c) && !Backed(c) && !Starves(c)
    ensures Enabled(c, RunPosted)
    ensures var d := Apply(c, RunPosted);
            && Inv(d) && !Backed(d)
            && |d.posted| + 3 * |d.sendWaiters| < |c.posted| + 3 * |c.sendWaiters|
  {
    assert c.posted != [];
    StepInv(c, RunPosted);
    RecvWakesPop(c.posted);
    if c.posted[0].WakeRecv? { TakeBalance(c.(posted := c.posted[1..])); }
  }

  /** With more wake-ups than values to come, the loop alone makes some receiver return None. */
  lemma {:induction false} UnbackedWakeStarves<T>(c: Chan<T>) returns (n: nat)
    requires Inv(c) && !Backed(c)
    ensures IsRun(c, Repeat(n)) && Starves(Exec(c, Repeat(n)))
    decreases |c.posted| + 3 * |c.sendWaiters|
  {
    hide Inv, Backed, Apply, Starves;
    if Starves(c) {
      n := 0;
    } else {
      UnbackedStep(c);
      n := UnbackedWakeStarves(Apply(c, RunPosted));
      n := n + 1;
      assert Repeat<T>(n)[1..] == Repeat(n - 1);
    }
  }

  /** Letting the loop run, without further calls, no receiver returns None from the open channel. */
  ghost predicate Settles<T>(c: Chan<T>) {
    forall n: nat :: IsRun(c, Repeat(n)) ==> !Starves(Exec(c, Repeat(n)))
  }

  lemma {:induction false} BackedSettles<T>(c: Chan<T>, n: nat)
    requires Inv(c) && Backed(c) && IsRun(c, Repeat(n))
    ensures !Starves(Exec(c, Repeat(n)))
    decreases n
  {
    if n == 0 {
      BackedDoesNotStarve(c);
    } else {
      assert Repeat<T>(n)[1..] == Repeat(n - 1);
      StepInv(c, RunPosted);
      BackedStaysExactlyIfFair(c, RunPosted);
      BackedSettles(Apply(c, RunPosted), n - 1);
    }
  }

  /** Whether the loop alone disappoints a receiver is decided by counting wake-ups and values. */
  lemma {:induction false} SettlesExactlyIfBacked<T>(c: Chan<T>)
    requires Inv(c)
    ensures Settles(c) <==> Backed(c)
  {
    if Backed(c) {
      forall n: nat | IsRun(c, Repeat(n)) ensures !Starves(Exec(c, Repeat(n))) { BackedSettles(c, n); }
    } else {
      var n := UnbackedWakeStarves(c);
    }
  }

  /** At every point of the run the loop alone would disappoint no receiver. */
  ghost predicate AlwaysSettles<T>(c: Chan<T>, es: seq<Event<T>>)
    requires IsRun(c, es)
    decreases |es|
  {
    Settles(c) && (es == [] || AlwaysSettles(Apply(c, es[0]), es[1..]))
  }

  lemma {:induction false} FairFrom<T>(c: Chan<T>, es: seq<Event<T>>)
    requires Inv(c) && Backed(c) && IsRun(c, es)
    ensures IsFairRun(c, es) <==> AlwaysSettles(c, es)
    decreases |es|
  {
    hide Settles;
    SettlesExactlyIfBacked(c);
    if es == [] {
    } else {
      var d := Apply(c, es[0]);
      StepInv(c, es[0]);
      BackedStaysExactlyIfFair(c, es[0]);
      SettlesExactlyIfBacked(d);
      if Backed(d) { FairFrom(d, es[1..]); }
    }
  }

  /**
   The end-of-stream law in full: a run is fair, that is, no direct receive takes a value that a woken
   receiver counts on, if and only if at no point of it the posted wake-ups alone would make a receiver
   return None from the open channel.
   */
  lemma {:induction false} FairExactlyIfNobodyIsDisappointed<T>(capacity: nat, es: seq<Event<T>>)
    requires IsRun(Start(capacity), es)
    ensures IsFairRun(Start(capacity), es) <==> AlwaysSettles(Start(capacity), es)
  {
    FairFrom(Start(capacity), es);
  }

  /** Each unfair receive, whatever is blocked or waiting, makes some receiver return None from the open channel. */
  lemma {:induction false} UnfairReceiveBreaksEndOfStream<T>(c: Chan<T>, e: Event<T>) returns (n: nat)
    requires Inv(c) && Backed(c) && Enabled(c, e) && !Fair(c, e)
    ensures IsRun(c, [e] + Repeat(n)) && Starves(Exec(c, [e] + Repeat(n)))
  {
    StepInv(c, e);
    BackedStaysExactlyIfFair(c, e);
    n := UnbackedWakeStarves(Apply(c, e));
    assert ([e] + Repeat<T>(n))[1..] == Repeat(n);
  }

  /** Such a state is reached by one waiting receiver and one send. */
  lemma {:induction false} UnfairStateIsReachable<T>(capacity: nat, v: T)
    requires capacity > 0
    ensures var es := [Recv(0), TrySend(v)];
            && IsRun(Start(capacity), es)
            && var c := Exec(Start(capacity), es);
               Inv(c) && Backed(c) && !Fair(c, TryRecv)
  {
    hide Orderly, IsRun, Exec;
    var c0, e1, e2 := Start<T>(capacity), Recv(0), TrySend(v);
    var c1 := c0.(recvWaiters := [0]);
    assert Apply(c0, e1) == c1;
    var c2 := c0.(buffer := [v], issued := [v], posted := [WakeRecv(0)]);
    assert Apply(c1, e2) == c2;
    TwoSteps(c0, e1, e2);
    StartInv<T>(capacity);
    StepInv(c0, e1);
    StepInv(c1, e2);
    RecvWakesAppend([], WakeRecv(0));
    assert [] + [WakeRecv(0)] == [WakeRecv(0)];
  }

  /** One consumer: a receive begins only when no earlier one is waiting or about to be resumed. */
  predicate IsSoloRun<T>(c: Chan<T>, es: seq<Event<T>>)
    decreases |es|
  {
    es == [] ||
    ( && Enabled(c, es[0])
      && (es[0].Recv? || es[0].TryRecv? ==> c.recvWaiters == [] && RecvWakes(c.posted) == 0)
      && IsSoloRun(Apply(c, es[0]), es[1..]))
  }

  /** A single consumer is always fair, so the end-of-stream law holds for it. */
  lemma {:induction false} SingleConsumerIsFair<T>(c: Chan<T>, es: seq<Event<T>>)
    requires IsSoloRun(c, es)
    ensures IsFairRun(c, es)
    decreases |es|
  {
    if es == [] {
    } else {
      SingleConsumerIsFair(Apply(c, es[0]), es[1..]);
    }
  }

  /** End of stream for a single consumer: None means closed and everything accepted was delivered. */
  lemma {:induction false} SingleConsumerEndOfStream<T>(capacity: nat, es: seq<Event<T>>, e: Event<T>)
    requires IsSoloRun(Start(capacity), es) && IsRun(Start(capacity), es)
    requires EndsReceive(Exec(Start(capacity), es), e) && Received(Exec(Start(capacity), es)) == None
    ensures var c := Exec(Start(capacity), es);
            c.closed && c.buffer == [] && c.delivered + c.dropped == c.issued
  {
    SingleConsumerIsFair(Start(capacity), es);
    NoneMeansClosedAndDrained(capacity, es, e);
  }

  /** The object itself: ChannelImpl with the loop's queue. */
  class ChannelImpl<T> {
    const capacity: nat
    var closed: bool
    var buffer: seq<T>
    var recvWaiters: seq<nat>
    var sendWaiters: seq<SendWaiter<T>>
    var sent: set<nat>
    var posted: seq<Wake>
    ghost var issued: seq<T>
    ghost var delivered: seq<T>
    ghost var dropped: seq<T>

    ghost function View(): Chan<T>
      reads this
    {
      Chan(capacity, closed, buffer, recvWaiters, sendWaiters, sent, posted, issued, delivered, dropped)
    }

    constructor (capacity: nat)
      ensures View() == Start(capacity) && Inv(View())
    {
      this.capacity := capacity;
      closed, buffer, recvWaiters, sendWaiters, sent, posted := false, [], [], [], {}, [];
      issued, delivered, dropped := [], [], [];
    }

    method ResumeHandle(w: Wake)
      modifies this`posted
      ensures posted == old(posted) + [w]
    {
      posted := posted + [w];
    }

    method WakeNextReceiverLocked()
      modifies this
      ensures View() == WakeNextReceiver(old(View()))
    {
      if recvWaiters != [] {
        var handle := recvWaiters[0];
        recvWaiters := recvWaiters[1..];
        ResumeHandle(WakeRecv(handle));
      }
    }

    method WakeNextSenderLocked()
      modifies this
      ensures View() == WakeNextSender(old(View()))
    {
      if sendWaiters != [] && |buffer| < capacity {
        var waiter := sendWaiters[0];
        sendWaiters := sendWaiters[1..];
        buffer := buffer + [waiter.value];
        sent := sent + {waiter.handle};
        WakeNextReceiverLocked();
        ResumeHandle(WakeSend(waiter.handle));
      }
    }

    method TrySend(value: T) returns (ok: bool)
      requires Inv(View())
      modifies this
      ensures View() == Apply(old(View()), Event.TrySend(value)) && Inv(View())
      ensures ok <==> !old(closed) && |old(buffer)| < capacity
    {
      StepInv(View(), Event.TrySend(value));
      if closed { return false; }
      if |buffer| >= capacity { return false; }
      buffer := buffer + [value];
      issued := issued + [value];
      WakeNextReceiverLocked();
      return true;
    }

    method TryRecv() returns (r: Option<T>)
      requires Inv(View())
      modifies this
      ensures View() == Apply(old(View()), Event.TryRecv) && Inv(View())
      ensures r == Received(old(View()))
    {
      StepInv(View(), Event.TryRecv);
      if buffer == [] { return None; }
      r := TakeFront();
    }

    /** Pops the front value and lets a blocked sender refill the buffer. */
    method TakeFront() returns (r: Option<T>)
      requires buffer != []
      modifies this
      ensures View() == Take(old(View())) && r == Some(old(buffer)[0])
    {
      r := Some(buffer[0]);
      delivered := delivered + [buffer[0]];
      buffer := buffer[1..];
      WakeNextSenderLocked();
    }

    /** Sender::send up to its suspension or end; `suspends` tells which. */
    method Send(handle: nat, value: T) returns (suspends: bool, ok: bool)
      requires Inv(View()) && Enabled(View(), Event.Send(handle, value))
      modifies this
      ensures View() == Apply(old(View()), Event.Send(handle, value)) && Inv(View())
      ensures ok <==> !old(closed) && |old(buffer)| < capacity
      ensures suspends <==> !old(closed) && |old(buffer)| >= capacity
    {
      StepInv(View(), Event.Send(handle, value));
      if closed { return false, false; }
      var now := TrySend(value);
      if now { return false, true; }
      sendWaiters := sendWaiters + [SendWaiter(handle, value)];
      sent := sent - {handle};
      issued := issued + [value];
      return true, false;
    }

    /** Receiver::recv up to its suspension or end; `suspends` tells which. */
    method Recv(handle: nat) returns (suspends: bool, r: Option<T>)
      requires Inv(View()) && Enabled(View(), Event.Recv(handle))
      modifies this
      ensures View() == Apply(old(View()), Event.Recv(handle)) && Inv(View())
      ensures suspends <==> !EndsReceive(old(View()), Event.Recv(handle))
      ensures r == Received(old(View()))
    {
      StepInv(View(), Event.Recv(handle));
      r := TryRecv();
      if r != None || closed { return false, r; }
      recvWaiters := recvWaiters + [handle];
      return true, None;
    }

    method ResumeAllReceivers()
      modifies this`posted
      ensures posted == old(posted) + RecvWakesOf(recvWaiters)
    {
      for i := 0 to |recvWaiters|
        invariant posted == old(posted) + RecvWakesOf(recvWaiters[..i])
      {
        assert recvWaiters[..i + 1][..i] == recvWaiters[..i];
        ResumeHandle(WakeRecv(recvWaiters[i]));
      }
      assert recvWaiters[..|recvWaiters|] == recvWaiters;
    }

    method ResumeAllSenders()
      modifies this`posted
      ensures posted == old(posted) + SendWakesOf(sendWaiters)
    {
      for i := 0 to |sendWaiters|
        invariant posted == old(posted) + SendWakesOf(sendWaiters[..i])
      {
        assert sendWaiters[..i + 1][..i] == sendWaiters[..i];
        ResumeHandle(WakeSend(sendWaiters[i].handle));
      }
      assert sendWaiters[..|sendWaiters|] == sendWaiters;
    }

    method Close()
      requires Inv(View())
      modifies this
      ensures View() == Apply(old(View()), Event.Close) && Inv(View())
    {
      StepInv(View(), Event.Close);
      if !closed {
        closed := true;
        dropped := Values(sendWaiters);
        ResumeAllReceivers();
        recvWaiters := [];
        ResumeAllSenders();
        sendWaiters := [];
      }
    }

    /** The loop runs its oldest callback: await_resume of the receiver or sender it resumes. */
    method RunPosted() returns (r: Option<T>, ok: bool)
      requires Inv(View()) && posted != []
      modifies this
      ensures View() == Apply(old(View()), Event.RunPosted) && Inv(View())
      ensures old(posted)[0].WakeRecv? ==> r == Received(old(View()))
      ensures old(posted)[0].WakeSend? ==> ok == !old(closed)
    {
      StepInv(View(), Event.RunPosted);
      var w := posted[0];
      assert w.WakeSend? && !closed ==> w.handle in sent;
      posted := posted[1..];
      r, ok := None, false;
      match w
      case WakeRecv(_) => if buffer != [] { r := TakeFront(); }
      case WakeSend(h) => ok := !closed && h in sent;
    }
  }
}
