/**
 The asynchronous RwLock (include/pman/async/rwlock.hpp) on one event loop.

 A release hands the lock over by changing state_ on behalf of the waiters it picks and posting
 their resumption; between the post and the resumption the lock is granted but not yet in use.
 */
module RwLock {

  /** A posted resumption: the waiter already owns the lock in this mode. */
  datatype Grant = Read(handle: nat) | Write(handle: nat)

  /**
   `activeReads` and `activeWrites` count the guards in use.  The histories list the handles that
   ever queued for each mode and those the lock was handed to.
   */
  datatype Lock = Lock(
    state: int, readWaiters: seq<nat>, writeWaiters: seq<nat>, posted: seq<Grant>,
    activeReads: nat, activeWrites: nat,
    queuedReads: seq<nat>, grantedReads: seq<nat>, queuedWrites: seq<nat>, grantedWrites: seq<nat>)

  datatype Event =
    | ReadLock(handle: nat)
    | WriteLock(handle: nat)
    | TryReadLock
    | TryWriteLock
    | UnlockRead
    | UnlockWrite
    | Resume

  function Start(): Lock { Lock(0, [], [], [], 0, 0, [], [], [], []) }

  function Reads(q: seq<Grant>): nat {
    if q == [] then 0 else Reads(q[..|q| - 1]) + (if q[|q| - 1].Read? then 1 else 0)
  }

  function ReadGrants(hs: seq<nat>): seq<Grant> {
    if hs == [] then [] else ReadGrants(hs[..|hs| - 1]) + [Read(hs[|hs| - 1])]
  }

  predicate Enabled(l: Lock, e: Event) {
    match e
    case UnlockRead => l.activeReads > 0
    case UnlockWrite => l.activeWrites > 0
    case Resume => l.posted != []
    case _ => true
  }

  /** Hands the free lock to the longest waiting writer. */
  function GrantWriter(l: Lock): Lock
    requires l.writeWaiters != []
  {
    l.(state := -1, writeWaiters := l.writeWaiters[1..], posted := l.posted + [Write(l.writeWaiters[0])],
       grantedWrites := l.grantedWrites + [l.writeWaiters[0]])
  }

  /** Hands the free lock to all waiting readers at once. */
  function GrantReaders(l: Lock): Lock {
    l.(state := |l.readWaiters|, readWaiters := [], posted := l.posted + ReadGrants(l.readWaiters),
       grantedReads := l.grantedReads + l.readWaiters)
  }

  function Apply(l: Lock, e: Event): Lock
    requires Enabled(l, e)
  {
    match e
    case ReadLock(h) =>
      if l.state >= 0 then l.(state := l.state + 1, activeReads := l.activeReads + 1)
      else l.(readWaiters := l.readWaiters + [h], queuedReads := l.queuedReads + [h])
    case WriteLock(h) =>
      if l.state == 0 then l.(state := -1, activeWrites := l.activeWrites + 1)
      else l.(writeWaiters := l.writeWaiters + [h], queuedWrites := l.queuedWrites + [h])
    case TryReadLock => if l.state >= 0 then l.(state := l.state + 1, activeReads := l.activeReads + 1) else l
    case TryWriteLock => if l.state == 0 then l.(state := -1, activeWrites := l.activeWrites + 1) else l
    case UnlockRead =>
      var l' := l.(state := l.state - 1, activeReads := l.activeReads - 1);
      if l.state == 1 && l.writeWaiters != [] then GrantWriter(l') else l'
    case UnlockWrite =>
      var l' := l.(state := 0, activeWrites := l.activeWrites - 1);
      if l.writeWaiters != [] then GrantWriter(l') else GrantReaders(l')
    case Resume =>
      var l' := l.(posted := l.posted[1..]);
      if l.posted[0].Read? then l'.(activeReads := l.activeReads + 1) else l'.(activeWrites := l.activeWrites + 1)
  }

  /** Grants in use or on their way to be resumed. */
  function ReadHolders(l: Lock): int { l.activeReads + Reads(l.posted) }
  function WriteHolders(l: Lock): int { l.activeWrites + |l.posted| - Reads(l.posted) }
  function Waiters(l: Lock): nat { |l.readWaiters| + |l.writeWaiters| }
  function Total(l: Lock): int { ReadHolders(l) + WriteHolders(l) + Waiters(l) }

  ghost predicate Inv(l: Lock) {
    && 0 <= ReadHolders(l) && 0 <= WriteHolders(l) <= 1
    && l.state == (if WriteHolders(l) == 1 then -1 else ReadHolders(l))
    && (WriteHolders(l) == 1 ==> ReadHolders(l) == 0)
    && (l.readWaiters != [] ==> l.state == -1)
    && (l.writeWaiters != [] ==> l.state != 0)
    && l.grantedReads + l.readWaiters == l.queuedReads
    && l.grantedWrites + l.writeWaiters == l.queuedWrites
  }

  lemma {:induction false} ReadsAppend(q: seq<Grant>, g: Grant)
    ensures Reads(q + [g]) == Reads(q) + (if g.Read? then 1 else 0)
  {
    assert (q + [g])[..|q + [g]| - 1] == q;
  }

  lemma {:induction false} ReadsAppendAll(q: seq<Grant>, hs: seq<nat>)
    ensures Reads(q + ReadGrants(hs)) == Reads(q) + |hs| && |ReadGrants(hs)| == |hs|
  {
    if hs == [] {
      assert q + [] == q;
    } else {
      var k := |hs| - 1;
      ReadsAppendAll(q, hs[..k]);
      ReadsAppend(q + ReadGrants(hs[..k]), Read(hs[k]));
      assert q + ReadGrants(hs) == q + ReadGrants(hs[..k]) + [Read(hs[k])];
    }
  }

  lemma {:induction false} ReadsPop(q: seq<Grant>)
    requires q != []
    ensures Reads(q[1..]) == Reads(q) - (if q[0].Read? then 1 else 0)
  {
    var k := |q| - 1;
    if k == 0 {
      assert q[..0] == [] && q[1..] == [];
    } else {
      assert q[1..][..k - 1] == q[..k][1..];
      ReadsPop(q[..k]);
    }
  }

  lemma {:induction false} ReadsAtMost(q: seq<Grant>)
    ensures Reads(q) <= |q|
  {
    if q == [] {
    } else {
      ReadsAtMost(q[..|q| - 1]);
    }
  }

  /** An unlock hands over: it keeps the invariant and lowers holders plus waiters by exactly one. */
  lemma {:induction false} UnlockInv(l: Lock, e: Event)
    requires Inv(l) && Enabled(l, e) && (e.UnlockRead? || e.UnlockWrite?)
    ensures Inv(Apply(l, e)) && Total(Apply(l, e)) == Total(l) - 1
  {
    hide Reads, ReadGrants;
    ReadsAtMost(l.posted);
    if l.writeWaiters != [] {
      ReadsAppend(l.posted, Write(l.writeWaiters[0]));
      assert l.writeWaiters == [l.writeWaiters[0]] + l.writeWaiters[1..];
      assert l.grantedWrites + [l.writeWaiters[0]] + l.writeWaiters[1..] == l.grantedWrites + l.writeWaiters;
    } else if e.UnlockWrite? {
      ReadsAppendAll(l.posted, l.readWaiters);
      assert l.grantedReads + l.readWaiters + [] == l.queuedReads;
    }
  }

  /** A released write lock goes to the longest waiting writer; only without any, to all waiting readers at once. */
  lemma {:induction false} WritersComeFirst(l: Lock)
    requires Inv(l) && Enabled(l, UnlockWrite)
    ensures var l' := Apply(l, UnlockWrite);
            if l.writeWaiters != []
            then && l'.grantedWrites == l.grantedWrites + [l.writeWaiters[0]] && l'.writeWaiters == l.writeWaiters[1..]
                 && l'.readWaiters == l.readWaiters && l'.grantedReads == l.grantedReads && l'.state == -1
            else && l'.grantedReads == l.grantedReads + l.readWaiters && l'.readWaiters == []
                 && l'.grantedWrites == l.grantedWrites && l'.state == |l.readWaiters|
  {}

  /** A released read lock goes to the longest waiting writer exactly if it was the last one. */
  lemma {:induction false} LastReaderHandsOver(l: Lock)
    requires Inv(l) && Enabled(l, UnlockRead)
    ensures var l' := Apply(l, UnlockRead);
            && l'.readWaiters == l.readWaiters && l'.grantedReads == l.grantedReads
            && l'.grantedWrites == (if ReadHolders(l) == 1 && l.writeWaiters != []
                                    then l.grantedWrites + [l.writeWaiters[0]] else l.grantedWrites)
  {
    hide Reads;
    ReadsAtMost(l.posted);
  }

  lemma {:induction false} StepInv(l: Lock, e: Event)
    requires Inv(l) && Enabled(l, e)
    ensures Inv(Apply(l, e))
  {
    ReadsAtMost(l.posted);
    match e
    case UnlockRead => UnlockInv(l, e);
    case UnlockWrite => UnlockInv(l, e);
    case Resume => ReadsPop(l.posted);
    case _ =>
  }

  predicate IsRun(l: Lock, es: seq<Event>)
    decreases |es|
  {
    es == [] || (Enabled(l, es[0]) && IsRun(Apply(l, es[0]), es[1..]))
  }

  function Exec(l: Lock, es: seq<Event>): Lock
    requires IsRun(l, es)
    decreases |es|
  {
    if es == [] then l else Exec(Apply(l, es[0]), es[1..])
  }

  lemma {:induction false} NoReads(q: seq<Grant>)
    requires q == []
    ensures Reads(q) == 0
  {}

  lemma {:induction false} StartInv()
    ensures Inv(Start())
  {
    hide Inv;
    IdleInv(Start());
  }

  lemma {:induction false} IdleInv(l: Lock)
    requires l.state == 0 && l.activeReads == 0 && l.activeWrites == 0 && l.posted == []
    requires l.readWaiters == [] && l.grantedReads == l.queuedReads
    requires l.writeWaiters == [] && l.grantedWrites == l.queuedWrites
    ensures Inv(l)
  {
    hide Reads;
    NoReads(l.posted);
    assert l.grantedReads + l.readWaiters == l.grantedReads && l.grantedWrites + l.writeWaiters == l.grantedWrites;
  }

  lemma {:induction false} RunInv(l: Lock, es: seq<Event>)
    requires Inv(l) && IsRun(l, es)
    ensures Inv(Exec(l, es))
    decreases |es|
  {
    if es == [] {
    } else {
      StepInv(l, es[0]);
      RunInv(Apply(l, es[0]), es[1..]);
    }
  }

  /** state_ tells who owns the lock, counting grants from the hand-over on. */
  ghost predicate StateTells(l: Lock) {
    && (l.state == -1 <==> WriteHolders(l) == 1)
    && (l.state != -1 ==> l.state == ReadHolders(l) >= 0 && WriteHolders(l) == 0)
    && (l.state == -1 ==> ReadHolders(l) == 0)
  }

  /** Readers wait only for a writer, writers only for a holder, and grants follow the queues. */
  ghost predicate WaitsAreJustified(l: Lock) {
    && (l.readWaiters != [] ==> WriteHolders(l) == 1)
    && (l.writeWaiters != [] ==> ReadHolders(l) + WriteHolders(l) > 0)
    && l.queuedReads == l.grantedReads + l.readWaiters
    && l.queuedWrites == l.grantedWrites + l.writeWaiters
  }

  /** Exclusion and hand-over order, in every run. */
  lemma {:induction false} StateCountsGrants(es: seq<Event>)
    requires IsRun(Start(), es)
    ensures StateTells(Exec(Start(), es)) && WaitsAreJustified(Exec(Start(), es))
  {
    hide Apply, IsRun, Exec, Reads, Start;
    StartInv();
    RunInv(Start(), es);
    var l := Exec(Start(), es);
    assert Inv(l);
  }

  // With no new arrivals, everybody gets the lock.

  predicate Arrival(e: Event) { e.ReadLock? || e.WriteLock? || e.TryReadLock? || e.TryWriteLock? }

  predicate NoArrivals(es: seq<Event>) { forall i :: 0 <= i < |es| ==> !Arrival(es[i]) }

  /** A bound on the releases and resumptions still to come. */
  function Work(l: Lock): nat { 3 * Waiters(l) + 2 * |l.posted| + l.activeReads + l.activeWrites }

  lemma {:induction false} WorkShrinks(l: Lock, e: Event)
    requires Inv(l) && Enabled(l, e) && !Arrival(e)
    ensures Work(Apply(l, e)) < Work(l)
    ensures Apply(l, e).queuedReads == l.queuedReads && Apply(l, e).queuedWrites == l.queuedWrites
  {
    hide Reads, ReadGrants;
    ReadsAtMost(l.posted);
    ReadsAppendAll(l.posted, l.readWaiters);
  }

  /** As long as anybody holds or awaits the lock, a resumption or a release is possible. */
  lemma {:induction false} NeverStuck(l: Lock)
    requires Inv(l) && Total(l) > 0
    ensures Enabled(l, Resume) || Enabled(l, UnlockRead) || Enabled(l, UnlockWrite)
  {
    ReadsAtMost(l.posted);
  }

  lemma {:induction false} DrainBound(l: Lock, es: seq<Event>)
    requires Inv(l) && IsRun(l, es) && NoArrivals(es)
    ensures |es| + Work(Exec(l, es)) <= Work(l)
    ensures Exec(l, es).queuedReads == l.queuedReads && Exec(l, es).queuedWrites == l.queuedWrites
    decreases |es|
  {
    hide Inv, Apply, Work;
    if es == [] {
    } else {
      StepInv(l, es[0]);
      WorkShrinks(l, es[0]);
      assert forall i :: 0 <= i < |es[1..]| ==> es[1..][i] == es[i + 1];
      DrainBound(Apply(l, es[0]), es[1..]);
    }
  }

  /**
   From any reachable state, a run of releases and resumptions alone is finite, and when nothing is
   left to release or resume, every waiter has been granted the lock and the lock is free.
   */
  lemma {:induction false} EveryWaiterIsGranted(before: seq<Event>, es: seq<Event>)
    requires IsRun(Start(), before) && IsRun(Exec(Start(), before), es) && NoArrivals(es)
    ensures var l := Exec(Start(), before);
            var d := Exec(l, es);
            && |es| <= Work(l)
            && (!Enabled(d, Resume) && !Enabled(d, UnlockRead) && !Enabled(d, UnlockWrite) ==>
                  d.state == 0 && d.grantedReads == l.queuedReads && d.grantedWrites == l.queuedWrites)
  {
    hide Apply, IsRun, Exec, Reads, Start, NoArrivals;
    var l := Exec(Start(), before);
    StartInv();
    RunInv(Start(), before);
    DrainBound(l, es);
    RunInv(l, es);
    var d := Exec(l, es);
    if !Enabled(d, Resume) && !Enabled(d, UnlockRead) && !Enabled(d, UnlockWrite) {
      if Total(d) > 0 { NeverStuck(d); }
      assert d.grantedReads + [] == d.grantedReads && d.grantedWrites + [] == d.grantedWrites;
    }
  }

  // Granted waiters are resumed, in the order of their grants.

  function ReadHandles(q: seq<Grant>): seq<nat> {
    if q == [] then [] else ReadHandles(q[..|q| - 1]) + (if q[|q| - 1].Read? then [q[|q| - 1].handle] else [])
  }

  function WriteHandles(q: seq<Grant>): seq<nat> {
    if q == [] then [] else WriteHandles(q[..|q| - 1]) + (if q[|q| - 1].Write? then [q[|q| - 1].handle] else [])
  }

  lemma {:induction false} HandlesAppend(q: seq<Grant>, g: Grant)
    ensures ReadHandles(q + [g]) == ReadHandles(q) + (if g.Read? then [g.handle] else [])
    ensures WriteHandles(q + [g]) == WriteHandles(q) + (if g.Write? then [g.handle] else [])
  {
    assert (q + [g])[..|q + [g]| - 1] == q;
  }

  lemma {:induction false} HandlesAppendAll(q: seq<Grant>, hs: seq<nat>)
    ensures ReadHandles(q + ReadGrants(hs)) == ReadHandles(q) + hs
    ensures WriteHandles(q + ReadGrants(hs)) == WriteHandles(q)
  {
    hide ReadHandles, WriteHandles;
    if hs == [] {
      assert q + ReadGrants(hs) == q && ReadHandles(q) + hs == ReadHandles(q);
    } else {
      var k := |hs| - 1;
      HandlesAppendAll(q, hs[..k]);
      HandlesAppend(q + ReadGrants(hs[..k]), Read(hs[k]));
      assert q + ReadGrants(hs) == q + ReadGrants(hs[..k]) + [Read(hs[k])];
      assert ReadHandles(q) + hs[..k] + [hs[k]] == ReadHandles(q) + hs;
    }
  }

  lemma {:induction false} Assoc(a: seq<nat>, b: seq<nat>, c: seq<nat>)
    ensures a + b + c == a + (b + c)
  {}

  lemma {:induction false} HandlesPop(q: seq<Grant>)
    requires q != []
    ensures ReadHandles(q) == (if q[0].Read? then [q[0].handle] else []) + ReadHandles(q[1..])
    ensures WriteHandles(q) == (if q[0].Write? then [q[0].handle] else []) + WriteHandles(q[1..])
  {
    var k, g := |q| - 1, q[|q| - 1];
    if k == 0 {
      assert q[..0] == [] && q[1..] == [];
    } else {
      hide ReadHandles, WriteHandles;
      var front, mid := q[..k], q[1..k];
      assert front[1..] == mid && q == front + [g] && q[1..] == mid + [g];
      HandlesPop(front);
      HandlesAppend(front, g);
      HandlesAppend(mid, g);
      Assoc(if q[0].Read? then [q[0].handle] else [], ReadHandles(mid), if g.Read? then [g.handle] else []);
      Assoc(if q[0].Write? then [q[0].handle] else [], WriteHandles(mid), if g.Write? then [g.handle] else []);
    }
  }

  /** The handles that an event resumes: a waiting reader's, or a waiting writer's. */
  function ResumesRead(l: Lock, e: Event): seq<nat>
    requires Enabled(l, e)
  {
    if e.Resume? && l.posted[0].Read? then [l.posted[0].handle] else []
  }

  function ResumesWrite(l: Lock, e: Event): seq<nat>
    requires Enabled(l, e)
  {
    if e.Resume? && l.posted[0].Write? then [l.posted[0].handle] else []
  }

  function ResumedReads(l: Lock, es: seq<Event>): seq<nat>
    requires IsRun(l, es)
    decreases |es|
  {
    if es == [] then [] else ResumesRead(l, es[0]) + ResumedReads(Apply(l, es[0]), es[1..])
  }

  function ResumedWrites(l: Lock, es: seq<Event>): seq<nat>
    requires IsRun(l, es)
    decreases |es|
  {
    if es == [] then [] else ResumesWrite(l, es[0]) + ResumedWrites(Apply(l, es[0]), es[1..])
  }

  /** Granted are those resumed so far (`rs`, `ws`) and those posted. */
  predicate Accounted(l: Lock, rs: seq<nat>, ws: seq<nat>) {
    l.grantedReads == rs + ReadHandles(l.posted) && l.grantedWrites == ws + WriteHandles(l.posted)
  }

  lemma {:induction false} StepAccounted(l: Lock, e: Event, rs: seq<nat>, ws: seq<nat>)
    requires Enabled(l, e) && Accounted(l, rs, ws)
    ensures Accounted(Apply(l, e), rs + ResumesRead(l, e), ws + ResumesWrite(l, e))
  {
    hide ReadHandles, WriteHandles, ReadGrants;
    assert rs + [] == rs && ws + [] == ws;
    match e
    case UnlockRead => GrantAccounted(l, rs, ws);
    case UnlockWrite => GrantAccounted(l, rs, ws);
    case Resume =>
      HandlesPop(l.posted);
      Assoc(rs, ResumesRead(l, e), ReadHandles(l.posted[1..]));
      Assoc(ws, ResumesWrite(l, e), WriteHandles(l.posted[1..]));
    case _ =>
  }

  lemma {:induction false} GrantAccounted(l: Lock, rs: seq<nat>, ws: seq<nat>)
    requires Accounted(l, rs, ws)
    ensures l.writeWaiters != [] ==> Accounted(GrantWriter(l), rs, ws)
    ensures Accounted(GrantReaders(l), rs, ws)
  {
    hide ReadHandles, WriteHandles, ReadGrants;
    if l.writeWaiters != [] {
      HandlesAppend(l.posted, Write(l.writeWaiters[0]));
      Assoc(ws, WriteHandles(l.posted), [l.writeWaiters[0]]);
      assert ReadHandles(l.posted) + [] == ReadHandles(l.posted);
    }
    HandlesAppendAll(l.posted, l.readWaiters);
    Assoc(rs, ReadHandles(l.posted), l.readWaiters);
  }

  lemma {:induction false} RunAccounted(l: Lock, es: seq<Event>, rs: seq<nat>, ws: seq<nat>)
    requires IsRun(l, es) && Accounted(l, rs, ws)
    ensures Accounted(Exec(l, es), rs + ResumedReads(l, es), ws + ResumedWrites(l, es))
    decreases |es|
  {
    hide Accounted, Apply, Enabled, ResumesRead, ResumesWrite;
    if es == [] {
      assert rs + [] == rs && ws + [] == ws;
    } else {
      var d, rest, r, w := Apply(l, es[0]), es[1..], ResumesRead(l, es[0]), ResumesWrite(l, es[0]);
      StepAccounted(l, es[0], rs, ws);
      RunAccounted(d, rest, rs + r, ws + w);
      Assoc(rs, r, ResumedReads(d, rest));
      Assoc(ws, w, ResumedWrites(d, rest));
    }
  }

  /**
   In every run: the waiters granted the lock are, in this order, those resumed and those whose resumption is
   posted, so that with the queues nobody who waited is ever lost or resumed out of turn.
   */
  lemma {:induction false} GrantedAreResumedInOrder(es: seq<Event>)
    requires IsRun(Start(), es)
    ensures var l := Exec(Start(), es);
            && l.queuedReads == ResumedReads(Start(), es) + ReadHandles(l.posted) + l.readWaiters
            && l.queuedWrites == ResumedWrites(Start(), es) + WriteHandles(l.posted) + l.writeWaiters
  {
    hide IsRun, Exec, ResumedReads, ResumedWrites, Apply, Inv, ReadHandles, WriteHandles;
    NothingGranted();
    RunAccounted(Start(), es, [], []);
    StateCountsGrants(es);
    assert [] + ResumedReads(Start(), es) == ResumedReads(Start(), es);
    assert [] + ResumedWrites(Start(), es) == ResumedWrites(Start(), es);
  }

  lemma {:induction false} NothingGranted()
    ensures Accounted(Start(), [], [])
  {
    hide ReadHandles, WriteHandles;
    NoHandles(Start().posted);
  }

  lemma {:induction false} NoHandles(q: seq<Grant>)
    requires q == []
    ensures ReadHandles(q) == [] && WriteHandles(q) == []
  {}

  /** The object itself, with the loop's queue of grants. */
  class AsyncRwLock {
    var state: int
    var readWaiters: seq<nat>
    var writeWaiters: seq<nat>
    var posted: seq<Grant>
    ghost var activeReads: nat
    ghost var activeWrites: nat
    ghost var queuedReads: seq<nat>
    ghost var grantedReads: seq<nat>
    ghost var queuedWrites: seq<nat>
    ghost var grantedWrites: seq<nat>

    ghost function View(): Lock
      reads this
    {
      Lock(state, readWaiters, writeWaiters, posted, activeReads, activeWrites,
           queuedReads, grantedReads, queuedWrites, grantedWrites)
    }

    constructor ()
      ensures View() == Start() && Inv(View())
    {
      state, readWaiters, writeWaiters, posted := 0, [], [], [];
      activeReads, activeWrites := 0, 0;
      queuedReads, grantedReads, queuedWrites, grantedWrites := [], [], [], [];
    }

    method TryReadLock() returns (ok: bool)
      requires Inv(View())
      modifies this
      ensures View() == Apply(old(View()), Event.TryReadLock) && Inv(View())
      ensures ok == (WriteHolders(old(View())) == 0)
    {
      StepInv(View(), Event.TryReadLock);
      ok := state >= 0;
      if ok {
        state := state + 1;
        activeReads := activeReads + 1;
      }
    }

    method TryWriteLock() returns (ok: bool)
      requires Inv(View())
      modifies this
      ensures View() == Apply(old(View()), Event.TryWriteLock) && Inv(View())
      ensures ok == (WriteHolders(old(View())) + ReadHolders(old(View())) == 0)
    {
      StepInv(View(), Event.TryWriteLock);
      ok := state == 0;
      if ok {
        state := -1;
        activeWrites := activeWrites + 1;
      }
    }

    /** co_await readLock(): acquires at once or joins the readers' queue. */
    method ReadLock(handle: nat) returns (ready: bool)
      requires Inv(View())
      modifies this
      ensures View() == Apply(old(View()), Event.ReadLock(handle)) && Inv(View())
      ensures ready == (WriteHolders(old(View())) == 0)
    {
      StepInv(View(), Event.ReadLock(handle));
      ready := TryReadLock();
      if !ready {
        readWaiters := readWaiters + [handle];
        queuedReads := queuedReads + [handle];
      }
    }

    /** co_await writeLock(): acquires at once or joins the writers' queue. */
    method WriteLock(handle: nat) returns (ready: bool)
      requires Inv(View())
      modifies this
      ensures View() == Apply(old(View()), Event.WriteLock(handle)) && Inv(View())
      ensures ready == (WriteHolders(old(View())) + ReadHolders(old(View())) == 0)
    {
      StepInv(View(), Event.WriteLock(handle));
      ready := TryWriteLock();
      if !ready {
        writeWaiters := writeWaiters + [handle];
        queuedWrites := queuedWrites + [handle];
      }
    }

    method HandToWriter()
      requires state == 0 && writeWaiters != []
      modifies this
      ensures View() == GrantWriter(old(View()))
    {
      state := -1;
      var handle := writeWaiters[0];
      writeWaiters := writeWaiters[1..];
      grantedWrites := grantedWrites + [handle];
      posted := posted + [Write(handle)];
    }

    method UnlockRead()
      requires Inv(View()) && Enabled(View(), Event.UnlockRead)
      modifies this
      ensures View() == Apply(old(View()), Event.UnlockRead) && Inv(View())
      ensures Total(View()) == old(Total(View())) - 1
    {
      hide Reads, ReadGrants, Total;
      UnlockInv(View(), Event.UnlockRead);
      var prev := state;
      state := state - 1;
      activeReads := activeReads - 1;
      if prev == 1 && writeWaiters != [] { HandToWriter(); }
    }

    method UnlockWrite()
      requires Inv(View()) && Enabled(View(), Event.UnlockWrite)
      modifies this
      ensures View() == Apply(old(View()), Event.UnlockWrite) && Inv(View())
      ensures Total(View()) == old(Total(View())) - 1
    {
      hide Inv, Reads, ReadGrants, Total;
      UnlockInv(View(), Event.UnlockWrite);
      state := 0;
      activeWrites := activeWrites - 1;
      if writeWaiters != [] {
        HandToWriter();
      } else {
        HandToReaders();
      }
    }

    method HandToReaders()
      requires state == 0
      modifies this
      ensures View() == GrantReaders(old(View()))
    {
      if readWaiters != [] {
        var toWake := readWaiters;
        readWaiters := [];
        state := state + |toWake|;
        grantedReads := grantedReads + toWake;
        PostReaders(toWake);
      } else {
        assert posted + [] == posted && grantedReads + [] == grantedReads;
      }
    }

    method PostReaders(toWake: seq<nat>)
      modifies this`posted
      ensures posted == old(posted) + ReadGrants(toWake)
    {
      for i := 0 to |toWake|
        invariant posted == old(posted) + ReadGrants(toWake[..i])
      {
        assert toWake[..i + 1][..i] == toWake[..i];
        posted := posted + [Read(toWake[i])];
      }
      assert toWake[..|toWake|] == toWake;
    }

    /** The loop resumes the waiter granted longest ago; it now holds its guard. */
    method Resume() returns (g: Grant)
      requires Inv(View()) && posted != []
      modifies this
      ensures View() == Apply(old(View()), Event.Resume) && Inv(View())
      ensures g == old(posted)[0]
    {
      StepInv(View(), Event.Resume);
      g := posted[0];
      posted := posted[1..];
      if g.Read? { activeReads := activeReads + 1; } else { activeWrites := activeWrites + 1; }
    }
  }
}
