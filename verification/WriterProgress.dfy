/**
 Wake-ups of the writers of FutexRwMutex (src/rw_mutex.cpp).  A program that never takes a read lock
 loses none of them; with any of the three ways to get a read lock, a writer can be left asleep
 on a free lock.
 */
module WriterProgress {
  import opened RwMutex
  import opened Tally

  /** A thread that has a read lock or is on its way to one. */
  predicate Reader(p: Pc) {
    || p.Reading? || p.SharedLoad? || p.SharedCas? || p.SharedSeq? || p.SharedReload? || p.SharedWait? || p.SharedAsleep?
    || p.TryShared? || ((p.BumpReaders? || p.WakeReaders?) && p.keep)
  }

  /** Between the store of an unlock and its increment of writer_futex_. */
  predicate Releasing(p: Pc) { p.BumpReaders? || p.WakeReaders? || p.PokeWriter? }

  predicate AwakeInLock(p: Pc) {
    || p.ExclLoad? || p.ExclCasFree? || p.ExclMark? || p.ExclSeq? || p.ExclReload? || p.ExclWait? || p.ExclCasWaiting?
  }

  /** A thread that will wake a writer, or take the lock and then wake one, or look at it again. */
  predicate Helper(p: Pc) { Releasing(p) || p.WakeWriter? || AwakeInLock(p) }

  ghost predicate AnyReleasing(ts: seq<Pc>) { exists j :: 0 <= j < |ts| && Releasing(ts[j]) }
  ghost predicate AnyHelper(ts: seq<Pc>) { exists j :: 0 <= j < |ts| && Helper(ts[j]) }

  predicate Current(m: Mutex, q: int, releasing: bool) {
    q <= m.writerFutex && (q == m.writerFutex ==> Holding(m.state) || releasing)
  }

  predicate WriterCovered(m: Mutex, p: Pc, releasing: bool, helper: bool) {
    match p
    case ExclReload(q) => q <= m.writerFutex
    case ExclWait(q) => Current(m, q, releasing)
    case ExclAsleep(q) => Current(m, q, releasing) && (Holding(m.state) || helper)
    case _ => true
  }

  ghost predicate NoReaders(m: Mutex) { forall i :: 0 <= i < |m.threads| ==> !Reader(m.threads[i]) }

  ghost predicate WritersCovered(m: Mutex) {
    forall i :: 0 <= i < |m.threads| ==>
      WriterCovered(m, m.threads[i], AnyReleasing(m.threads), AnyHelper(m.threads))
  }

  predicate TakesRead(e: Event) { e.CallLockShared? || e.CallTryLockShared? || e.DowngradeStore? }

  lemma {:induction false} StaysWithoutReaders(m: Mutex, e: Event)
    requires Enabled(m, e) && NoReaders(m) && !TakesRead(e)
    ensures NoReaders(Apply(m, e)) && !e.TryUpgrade? && !e.UnlockSharedSub?
  {
    var m' := Apply(m, e);
    assert !Reader(m.threads[e.t]);
    forall i | 0 <= i < |m'.threads| ensures !Reader(m'.threads[i]) {
      assert !Reader(m.threads[i]);
    }
  }

  /** Without read owners the word holds no readers. */
  lemma {:induction false} NoReadersNoCount(m: Mutex)
    requires Exclusive(m) && NoReaders(m)
    ensures Readers(m.state) == 0
  {
    hide Readers;
    forall i | 0 <= i < |m.threads| ensures HoldsRead(m.threads[i]) == 0 { assert !Reader(m.threads[i]); }
    SumZero(m.threads, HoldsRead);
  }

  /** The holding bit goes only with the store of an unlock, which is then releasing. */
  lemma {:induction false} HoldingStays(m: Mutex, e: Event)
    requires Enabled(m, e) && Exclusive(m) && |m.threads| < WRITER_WAITING && NoReaders(m) && !TakesRead(e)
    requires Holding(m.state)
    ensures Holding(Apply(m, e).state) || Releasing(Apply(m, e).threads[e.t])
  {
    StaysWithoutReaders(m, e);
    BitFacts(m.state);
    if e.OrWaiting? { Pack(Readers(m.state), true, true); }
    if e.CasState? { assert !Reader(m.threads[e.t]); Pack(0, false, true); }
  }

  ghost predicate Sound(m: Mutex) {
    Exclusive(m) && |m.threads| < WRITER_WAITING && NoReaders(m) && WritersCovered(m)
  }

  /** An unlock that has yet to increment writer_futex_ still has to, or has just done it. */
  lemma {:induction false} ReleasingStays(m: Mutex, e: Event)
    requires Enabled(m, e) && NoReaders(m)
    ensures AnyReleasing(m.threads) && Apply(m, e).writerFutex == m.writerFutex ==> AnyReleasing(Apply(m, e).threads)
  {
    var m' := Apply(m, e);
    if AnyReleasing(m.threads) && m'.writerFutex == m.writerFutex {
      var j :| 0 <= j < |m.threads| && Releasing(m.threads[j]);
      assert !Reader(m.threads[j]);
      assert Releasing(m'.threads[j]);
    }
  }

  lemma {:induction false} CurrentStays(m: Mutex, e: Event, q: int)
    requires Enabled(m, e) && Sound(m) && !TakesRead(e) && Current(m, q, AnyReleasing(m.threads))
    ensures Current(Apply(m, e), q, AnyReleasing(Apply(m, e).threads))
  {
    hide Exclusive, Holding, WritersCovered;
    ReleasingStays(m, e);
    if Holding(m.state) { HoldingStays(m, e); }
  }

  /** A helper goes on helping, hands over to the holder of the lock, or has woken somebody. */
  lemma {:induction false} HelpContinues(m: Mutex, e: Event, i: nat)
    requires Enabled(m, e) && Sound(m) && !TakesRead(e)
    requires i < |m.threads| && m.threads[i].ExclAsleep? && (Holding(m.state) || AnyHelper(m.threads))
    ensures Holding(Apply(m, e).state) || AnyHelper(Apply(m, e).threads)
  {
    hide Exclusive, Holding;
    var m' := Apply(m, e);
    if Holding(m.state) {
      HoldingStays(m, e);
    } else {
      var j :| 0 <= j < |m.threads| && Helper(m.threads[j]);
      if j != e.t {
        assert Helper(m'.threads[j]);
      } else {
        OwnHelp(m, e);
      }
    }
  }

  /** The same for a step of the helper itself. */
  lemma {:induction false} OwnHelp(m: Mutex, e: Event)
    requires Enabled(m, e) && Sound(m) && !TakesRead(e) && Helper(m.threads[e.t])
    requires exists i :: 0 <= i < |m.threads| && m.threads[i].ExclAsleep?
    ensures Holding(Apply(m, e).state) || AnyHelper(Apply(m, e).threads)
  {
    hide Exclusive;
    var m', p := Apply(m, e), m.threads[e.t];
    assert !Reader(p);
    if e.WakeOneWriter? {
      assert Helper(m'.threads[e.pick]);
    } else if e.Wait? {
      assert WriterCovered(m, p, AnyReleasing(m.threads), AnyHelper(m.threads));
      ReleasingStays(m, e);
      if !Helper(m'.threads[e.t]) && !Holding(m.state) {
        var j :| 0 <= j < |m'.threads| && Releasing(m'.threads[j]);
        assert Helper(m'.threads[j]);
      }
    } else {
      Pack(0, false, true);
      assert m'.state == WRITER_HOLDING || Helper(m'.threads[e.t]);
    }
  }

  lemma {:induction false} OwnCovered(m: Mutex, e: Event)
    requires Enabled(m, e) && Sound(m) && !TakesRead(e)
    ensures var m' := Apply(m, e);
            WriterCovered(m', m'.threads[e.t], AnyReleasing(m'.threads), AnyHelper(m'.threads))
  {
    hide Exclusive, Holding, Readers;
    var m', p := Apply(m, e), m.threads[e.t];
    assert WriterCovered(m, p, AnyReleasing(m.threads), AnyHelper(m.threads));
    NoReadersNoCount(m);
    ReleasingStays(m, e);
    if m'.threads[e.t].ExclAsleep? && AnyReleasing(m'.threads) {
      var j :| 0 <= j < |m'.threads| && Releasing(m'.threads[j]);
      assert Helper(m'.threads[j]);
    }
  }

  /** Every step that takes no read lock keeps the writers covered. */
  lemma {:induction false} StepSound(m: Mutex, e: Event)
    requires Enabled(m, e) && Sound(m) && !TakesRead(e)
    ensures Sound(Apply(m, e))
  {
    hide Exclusive, Holding, WriterCovered;
    var m' := Apply(m, e);
    StepExclusive(m, e);
    StaysWithoutReaders(m, e);
    OwnCovered(m, e);
    forall i | 0 <= i < |m'.threads|
      ensures WriterCovered(m', m'.threads[i], AnyReleasing(m'.threads), AnyHelper(m'.threads))
    {
      assert WriterCovered(m, m.threads[i], AnyReleasing(m.threads), AnyHelper(m.threads));
      if i != e.t { OthersCovered(m, e, i); }
    }
  }

  lemma {:induction false} OthersCovered(m: Mutex, e: Event, i: nat)
    requires Enabled(m, e) && Sound(m) && !TakesRead(e) && i < |m.threads| && i != e.t
    requires WriterCovered(m, m.threads[i], AnyReleasing(m.threads), AnyHelper(m.threads))
    ensures var m' := Apply(m, e);
            WriterCovered(m', m'.threads[i], AnyReleasing(m'.threads), AnyHelper(m'.threads))
  {
    hide Exclusive, Holding, Current, WritersCovered, AnyReleasing, AnyHelper;
    var m', p := Apply(m, e), m.threads[i];
    assert m'.threads[i] == p || !(p.ExclReload? || p.ExclWait? || m'.threads[i].ExclAsleep?);
    match p
    case ExclWait(q) => CurrentStays(m, e, q);
    case ExclAsleep(q) =>
      CurrentStays(m, e, q);
      HelpContinues(m, e, i);
    case _ =>
  }

  // Runs

  /** The calls that give a read lock. */
  datatype ReadCall = LockShared | TryLockShared | Downgrade

  predicate OnMenu(e: Event, menu: set<ReadCall>) {
    && (e.CallLockShared? ==> LockShared in menu)
    && (e.CallTryLockShared? ==> TryLockShared in menu)
    && (e.DowngradeStore? ==> Downgrade in menu)
  }

  /** Of the calls that give a read lock, the run uses only those in `menu`. */
  predicate CallsOnly(es: seq<Event>, menu: set<ReadCall>) { forall i :: 0 <= i < |es| ==> OnMenu(es[i], menu) }

  lemma {:induction false} RunSound(m: Mutex, es: seq<Event>)
    requires Sound(m) && IsRun(m, es) && CallsOnly(es, {})
    ensures Sound(Exec(m, es))
    decreases |es|
  {
    hide Sound, Apply, Enabled;
    if es == [] {
    } else {
      assert OnMenu(es[0], {});
      StepSound(m, es[0]);
      assert forall i :: 0 <= i < |es[1..]| ==> es[1..][i] == es[i + 1];
      RunSound(Apply(m, es[0]), es[1..]);
    }
  }

  lemma {:induction false} StartSound(n: nat)
    requires n < WRITER_WAITING
    ensures Sound(Start(n))
  {
    StartInv(n);
  }

  /**
   Without read locks no writer misses its wake-up: while one sleeps, another thread holds the lock, or
   is going to wake a writer, or is itself awake inside lock.
   */
  lemma {:induction false} WritersLoseNoWakeup(n: nat, es: seq<Event>, i: nat)
    requires n < WRITER_WAITING && IsRun(Start(n), es) && CallsOnly(es, {})
    requires i < n && Exec(Start(n), es).threads[i].ExclAsleep?
    ensures exists j :: 0 <= j < n && (Exec(Start(n), es).threads[j].Writing? || Helper(Exec(Start(n), es).threads[j]))
  {
    hide Holding;
    StartSound(n);
    RunSound(Start(n), es);
    var m := Exec(Start(n), es);
    assert WriterCovered(m, m.threads[i], AnyReleasing(m.threads), AnyHelper(m.threads));
    if Holding(m.state) { var j := SumPositive(m.threads, HoldsWrite); }
  }

  /** Asleep in lock, although nobody owns the lock or is inside any call that could lead to a wake-up. */
  predicate Stranded(m: Mutex, i: nat) {
    && i < |m.threads| && m.threads[i].ExclAsleep?
    && forall j :: 0 <= j < |m.threads| ==> m.threads[j].Out? || m.threads[j].ExclAsleep?
  }

  ghost predicate NeverStrands(menu: set<ReadCall>) {
    forall n: nat, es, i: nat ::
      n < WRITER_WAITING && IsRun(Start(n), es) && CallsOnly(es, menu) ==> !Stranded(Exec(Start(n), es), i)
  }

  // With read locks: three runs of two threads

  /** Two threads can get to `m` with no other read calls than those in `menu`. */
  ghost predicate Reachable(m: Mutex, menu: set<ReadCall>) {
    exists es :: IsRun(Start(2), es) && CallsOnly(es, menu) && Exec(Start(2), es) == m
  }

  lemma {:induction false} Step(m: Mutex, menu: set<ReadCall>, e: Event)
    requires Reachable(m, menu) && Enabled(m, e) && OnMenu(e, menu)
    ensures Reachable(Apply(m, e), menu)
  {
    hide Apply, Enabled;
    var es :| IsRun(Start(2), es) && CallsOnly(es, menu) && Exec(Start(2), es) == m;
    Extend(Start(2), es, e);
    var longer := es + [e];
    assert CallsOnly(longer, menu);
  }

  const BOTH := WRITER_HOLDING + WRITER_WAITING

  /** Thread 0 holds the write lock; thread 1 has marked itself as waiting in lock. */
  lemma {:induction false} WriterMarks(menu: set<ReadCall>)
    ensures Reachable(Mutex(BOTH, 0, 0, [Writing, ExclSeq]), menu)
  {
    hide Reachable;
    var m0 := Mutex(0, 0, 0, [Out, Out]);
    Initially(menu);
    Step(m0, menu, TryLock(0));
    var m1 := Mutex(WRITER_HOLDING, 0, 0, [Writing, Out]);
    assert Apply(m0, TryLock(0)) == m1;
    Step(m1, menu, CallLock(1));
    var m2 := Mutex(WRITER_HOLDING, 0, 0, [Writing, ExclLoad]);
    assert Apply(m1, CallLock(1)) == m2;
    Step(m2, menu, LoadState(1));
    var m3 := Mutex(WRITER_HOLDING, 0, 0, [Writing, ExclMark]);
    assert Apply(m2, LoadState(1)) == m3;
    Step(m3, menu, OrWaiting(1));
    assert Apply(m3, OrWaiting(1)) == Mutex(BOTH, 0, 0, [Writing, ExclSeq]);
  }

  lemma {:induction false} Initially(menu: set<ReadCall>)
    ensures Reachable(Mutex(0, 0, 0, [Out, Out]), menu)
  {
    var es: seq<Event> := [];
    assert Start(2).threads == [Out, Out];
    assert IsRun(Start(2), es) && CallsOnly(es, menu);
  }

  /** Downgrade overwrites the mark of a writer that sleeps already. */
  lemma {:induction false} DowngradeStrands(menu: set<ReadCall>)
    requires Downgrade in menu
    ensures Reachable(Mutex(0, 1, 0, [Out, ExclAsleep(0)]), menu)
  {
    hide Reachable;
    WriterMarks(menu);
    var m0 := Mutex(BOTH, 0, 0, [Writing, ExclSeq]);
    WriterSleeps(m0, menu);
    var m1 := Mutex(BOTH, 0, 0, [Writing, ExclAsleep(0)]);
    Step(m1, menu, DowngradeStore(0));
    var m2 := Mutex(1, 0, 0, [BumpReaders(true), ExclAsleep(0)]);
    assert Apply(m1, DowngradeStore(0)) == m2;
    Step(m2, menu, BumpFutex(0));
    var m3 := Mutex(1, 1, 0, [WakeReaders(true), ExclAsleep(0)]);
    assert Apply(m2, BumpFutex(0)) == m3;
    Step(m3, menu, WakeAllReaders(0));
    var m4 := Mutex(1, 1, 0, [Reading, ExclAsleep(0)]);
    assert Apply(m3, WakeAllReaders(0)) == m4;
    Step(m4, menu, UnlockSharedSub(0));
    assert Apply(m4, UnlockSharedSub(0)) == Mutex(0, 1, 0, [Out, ExclAsleep(0)]);
  }

  /** Thread 1 goes to sleep in lock while thread 0 owns a lock. */
  lemma {:induction false} WriterSleeps(m: Mutex, menu: set<ReadCall>)
    requires |m.threads| == 2 && m.threads[1].ExclSeq? && Reachable(m, menu)
    requires Readers(m.state) != 0 || Holding(m.state)
    ensures Reachable(m.(threads := [m.threads[0], ExclAsleep(m.writerFutex)]), menu)
  {
    hide Reachable, Readers, Holding;
    Step(m, menu, LoadFutex(1));
    var m1 := m.(threads := [m.threads[0], ExclReload(m.writerFutex)]);
    assert Apply(m, LoadFutex(1)) == m1;
    Step(m1, menu, LoadState(1));
    var m2 := m.(threads := [m.threads[0], ExclWait(m.writerFutex)]);
    assert Apply(m1, LoadState(1)) == m2;
    Step(m2, menu, Wait(1));
    assert Apply(m2, Wait(1)) == m.(threads := [m.threads[0], ExclAsleep(m.writerFutex)]);
  }

  /** An unlock overwrites the mark of a writer that is still awake, and wakes nobody. */
  lemma {:induction false} MarkIsLost(menu: set<ReadCall>)
    ensures Reachable(Mutex(0, 1, 1, [Out, ExclSeq]), menu)
  {
    hide Reachable;
    UnlockStores(menu);
    var m2 := Mutex(0, 1, 0, [WakeReaders(false), ExclSeq]);
    Step(m2, menu, WakeAllReaders(0));
    var m3 := Mutex(0, 1, 0, [PokeWriter, ExclSeq]);
    assert Apply(m2, WakeAllReaders(0)) == m3;
    Step(m3, menu, BumpFutex(0));
    var m4 := Mutex(0, 1, 1, [WakeWriter, ExclSeq]);
    assert Apply(m3, BumpFutex(0)) == m4;
    Step(m4, menu, WakeOneWriter(0, 0));
    assert Apply(m4, WakeOneWriter(0, 0)) == Mutex(0, 1, 1, [Out, ExclSeq]);
  }

  lemma {:induction false} UnlockStores(menu: set<ReadCall>)
    ensures Reachable(Mutex(0, 1, 0, [WakeReaders(false), ExclSeq]), menu)
  {
    hide Reachable;
    WriterMarks(menu);
    var m0 := Mutex(BOTH, 0, 0, [Writing, ExclSeq]);
    Step(m0, menu, UnlockStore(0));
    var m1 := Mutex(0, 0, 0, [BumpReaders(false), ExclSeq]);
    assert Apply(m0, UnlockStore(0)) == m1;
    Step(m1, menu, BumpFutex(0));
    assert Apply(m1, BumpFutex(0)) == Mutex(0, 1, 0, [WakeReaders(false), ExclSeq]);
  }

  /** A reader then enters, and leaves without waking the writer that fell asleep meanwhile. */
  lemma {:induction false} ReaderStrands(menu: set<ReadCall>)
    requires LockShared in menu || TryLockShared in menu
    ensures Reachable(Mutex(0, 1, 1, [Out, ExclAsleep(1)]), menu)
  {
    hide Reachable;
    MarkIsLost(menu);
    ReaderEnters(menu);
    var m1 := Mutex(1, 1, 1, [Reading, ExclSeq]);
    WriterSleeps(m1, menu);
    var m2 := Mutex(1, 1, 1, [Reading, ExclAsleep(1)]);
    Step(m2, menu, UnlockSharedSub(0));
    assert Apply(m2, UnlockSharedSub(0)) == Mutex(0, 1, 1, [Out, ExclAsleep(1)]);
  }

  lemma {:induction false} ReaderEnters(menu: set<ReadCall>)
    requires LockShared in menu || TryLockShared in menu
    requires Reachable(Mutex(0, 1, 1, [Out, ExclSeq]), menu)
    ensures Reachable(Mutex(1, 1, 1, [Reading, ExclSeq]), menu)
  {
    hide Reachable;
    var m0 := Mutex(0, 1, 1, [Out, ExclSeq]);
    if TryLockShared in menu {
      Step(m0, menu, CallTryLockShared(0));
      var m1 := Mutex(0, 1, 1, [TryShared(0), ExclSeq]);
      assert Apply(m0, CallTryLockShared(0)) == m1;
      Step(m1, menu, CasState(0, false));
      assert Apply(m1, CasState(0, false)) == Mutex(1, 1, 1, [Reading, ExclSeq]);
    } else {
      Step(m0, menu, CallLockShared(0));
      var m1 := Mutex(0, 1, 1, [SharedLoad, ExclSeq]);
      assert Apply(m0, CallLockShared(0)) == m1;
      Step(m1, menu, LoadState(0));
      var m2 := Mutex(0, 1, 1, [SharedCas(0), ExclSeq]);
      assert Apply(m1, LoadState(0)) == m2;
      Step(m2, menu, CasState(0, false));
      assert Apply(m2, CasState(0, false)) == Mutex(1, 1, 1, [Reading, ExclSeq]);
    }
  }

  lemma {:induction false} ReachableStrands(m: Mutex, menu: set<ReadCall>)
    requires Reachable(m, menu) && Stranded(m, 1)
    ensures !NeverStrands(menu)
  {
    hide Stranded;
    var es :| IsRun(Start(2), es) && CallsOnly(es, menu) && Exec(Start(2), es) == m;
  }

  /**
   Exactly when no writer can be left asleep on a free lock with nobody to wake it: if and only if the
   program uses none of lock_shared, try_lock_shared and downgrade.
   */
  lemma {:induction false} WritersAreSafeExactlyWithoutReadLocks(menu: set<ReadCall>)
    ensures NeverStrands(menu) <==> menu == {}
  {
    hide Reachable;
    if menu == {} {
      forall n: nat, es, i: nat | n < WRITER_WAITING && IsRun(Start(n), es) && CallsOnly(es, menu)
        ensures !Stranded(Exec(Start(n), es), i)
      {
        if i < n && Exec(Start(n), es).threads[i].ExclAsleep? { WritersLoseNoWakeup(n, es, i); }
      }
    } else if Downgrade in menu {
      DowngradeStrands(menu);
      ReachableStrands(Mutex(0, 1, 0, [Out, ExclAsleep(0)]), menu);
    } else {
      var c :| c in menu;
      assert c == LockShared || c == TryLockShared;
      ReaderStrands(menu);
      ReachableStrands(Mutex(0, 1, 1, [Out, ExclAsleep(1)]), menu);
    }
  }
}
