/**
 The callbacks posted to the event loop (src/async/epoll_loop.cpp): a round swaps the whole queue
 into a local vector and runs it, while callbacks it runs may post more.  Seen from outside this
 two-stage queue is a plain FIFO queue; the `posted` queues of the channel and of the lock
 stand for its contents.
 */
module LoopQueue {

  /** `posted` is the loop's queue, `running` the rest of the current round; histories beside. */
  datatype Queue<T> = Queue(posted: seq<T>, running: seq<T>, issued: seq<T>, ran: seq<T>)

  datatype Event<T> = Post(callback: T) | Swap | RunNext

  predicate Enabled<T>(q: Queue<T>, e: Event<T>) {
    match e
    case Post(_) => true
    case Swap => q.running == []
    case RunNext => q.running != []
  }

  function Apply<T>(q: Queue<T>, e: Event<T>): Queue<T>
    requires Enabled(q, e)
  {
    match e
    case Post(c) => q.(posted := q.posted + [c], issued := q.issued + [c])
    case Swap => q.(running := q.posted, posted := [])
    case RunNext => q.(running := q.running[1..], ran := q.ran + [q.running[0]])
  }

  predicate IsRun<T>(q: Queue<T>, es: seq<Event<T>>)
    decreases |es|
  {
    es == [] || (Enabled(q, es[0]) && IsRun(Apply(q, es[0]), es[1..]))
  }

  function Exec<T>(q: Queue<T>, es: seq<Event<T>>): Queue<T>
    requires IsRun(q, es)
    decreases |es|
  {
    if es == [] then q else Exec(Apply(q, es[0]), es[1..])
  }

  /** What has run, then the rest of the round, then the queue: the callbacks in the order posted. */
  ghost predicate Fifo<T>(q: Queue<T>) { q.ran + q.running + q.posted == q.issued }

  /** Callbacks run in exactly the order in which they were posted, in every run. */
  lemma {:induction false} RunsInPostingOrder<T>(q: Queue<T>, es: seq<Event<T>>)
    requires Fifo(q) && IsRun(q, es)
    ensures Fifo(Exec(q, es))
    decreases |es|
  {
    if es == [] {
    } else {
      var q' := Apply(q, es[0]);
      match es[0] {
        case Post(c) => assert q.ran + q.running + (q.posted + [c]) == q.issued + [c];
        case Swap => assert q.ran + q.posted + [] == q.ran + [] + q.posted;
        case RunNext => assert (q.ran + [q.running[0]]) + q.running[1..] == q.ran + q.running;
      }
      RunsInPostingOrder(q', es[1..]);
    }
  }

  /** What is still to run, oldest first. */
  function Contents<T>(q: Queue<T>): seq<T> { q.running + q.posted }

  /** Seen from outside: posting appends, running takes the oldest, and the swap is invisible. */
  lemma {:induction false} RefinesFifo<T>(q: Queue<T>, e: Event<T>)
    requires Enabled(q, e)
    ensures Contents(Apply(q, e)) ==
            match e
            case Post(c) => Contents(q) + [c]
            case Swap => Contents(q)
            case RunNext => Contents(q)[1..]
    ensures e.RunNext? ==> Contents(q) != [] && Apply(q, e).ran == q.ran + [Contents(q)[0]]
  {
    match e
    case Post(c) => assert q.running + (q.posted + [c]) == q.running + q.posted + [c];
    case Swap => assert q.posted + [] == [] + q.posted;
    case RunNext => assert (q.running + q.posted)[1..] == q.running[1..] + q.posted;
  }

  predicate SameRound<T>(es: seq<Event<T>>) { forall i :: 0 <= i < |es| ==> !es[i].Swap? }

  lemma {:induction false} RoundKeeps<T>(q: Queue<T>, es: seq<Event<T>>)
    requires IsRun(q, es) && SameRound(es)
    ensures Exec(q, es).ran + Exec(q, es).running == q.ran + q.running
    decreases |es|
  {
    if es == [] {
    } else {
      assert forall i :: 0 <= i < |es[1..]| ==> es[1..][i] == es[i + 1];
      RoundKeeps(Apply(q, es[0]), es[1..]);
      if es[0].RunNext? { assert (q.ran + [q.running[0]]) + q.running[1..] == q.ran + q.running; }
    }
  }

  /** A round runs exactly the callbacks posted before it began; those posted meanwhile wait for the next one. */
  lemma {:induction false} RoundRunsItsQueue<T>(q: Queue<T>, es: seq<Event<T>>)
    requires Enabled(q, Swap) && IsRun(Apply(q, Swap), es) && SameRound(es)
    ensures Exec(Apply(q, Swap), es).ran + Exec(Apply(q, Swap), es).running == q.ran + q.posted
  {
    RoundKeeps(Apply(q, Swap), es);
  }

  /** The object itself. */
  class PostedCallbacks<T> {
    var posted: seq<T>
    var running: seq<T>
    ghost var issued: seq<T>
    ghost var ran: seq<T>

    ghost function View(): Queue<T>
      reads this
    {
      Queue(posted, running, issued, ran)
    }

    constructor ()
      ensures View() == Queue([], [], [], [])
    {
      posted, running, issued, ran := [], [], [], [];
    }

    method Post(callback: T)
      modifies this
      ensures View() == Apply(old(View()), Event.Post(callback))
    {
      posted := posted + [callback];
      issued := issued + [callback];
    }

    method SwapOut()
      requires running == []
      modifies this
      ensures View() == Apply(old(View()), Event.Swap)
    {
      running, posted := posted, [];
    }

    method RunNext() returns (callback: T)
      requires running != []
      modifies this
      ensures View() == Apply(old(View()), Event.RunNext) && callback == old(running)[0]
    {
      callback := running[0];
      running := running[1..];
      ran := ran + [callback];
    }
  }
}
