/**
 Readers of FutexRwMutex (src/rw_mutex.cpp) are never stranded, whatever calls a program uses: although
 writers can be, a waiting mark that keeps readers out always has somebody awake who will remove it.
 */
module ReaderProgress {
  import opened RwMutex
  import opened Tally
  import WriterProgress

  predicate AwakeInLock(p: Pc) { WriterProgress.AwakeInLock(p) }

  /** On the way from the store or subtraction that freed the lock to the increment of writer_futex_. */
  predicate Releases(p: Pc) { p.PokeWriter? || ((p.BumpReaders? || p.WakeReaders?) && !p.keep) }

  /** A writer that is going to look at the state again before it can sleep. */
  predicate Alert(p: Pc, writerFutex: int) { AwakeInLock(p) && p != ExclWait(writerFutex) }

  /** A writer that fell asleep before the last increment of writer_futex_. */
  predicate Stale(p: Pc, writerFutex: int) { p.ExclAsleep? && p.seq_ < writerFutex }

  ghost predicate AnyInLock(ts: seq<Pc>) { exists i :: 0 <= i < |ts| && InLock(ts[i]) }
  ghost predicate AnyReleases(ts: seq<Pc>) { exists i :: 0 <= i < |ts| && Releases(ts[i]) }
  ghost predicate AnyAlert(ts: seq<Pc>, wf: int) { exists i :: 0 <= i < |ts| && Alert(ts[i], wf) }
  ghost predicate AnyStale(ts: seq<Pc>, wf: int) { exists i :: 0 <= i < |ts| && Stale(ts[i], wf) }
  ghost predicate AnyWaking(ts: seq<Pc>) { exists i :: 0 <= i < |ts| && ts[i].WakeWriter? }

  /** Somebody awake is going to take the free, marked lock or to wake a writer that will. */
  ghost predicate Attended(m: Mutex) {
    || AnyReleases(m.threads) || AnyAlert(m.threads, m.writerFutex)
    || (AnyWaking(m.threads) && AnyStale(m.threads, m.writerFutex))
  }

  predicate SeqOk(p: Pc, wf: int) { (p.ExclReload? || p.ExclWait? || p.ExclAsleep?) ==> p.seq_ <= wf }

  ghost predicate SeqsOk(m: Mutex) { forall i :: 0 <= i < |m.threads| ==> SeqOk(m.threads[i], m.writerFutex) }

  ghost predicate Marked(m: Mutex) {
    && SeqsOk(m)
    && (Waiting(m.state) ==> AnyInLock(m.threads))
    && (m.state == WRITER_WAITING ==> Attended(m))
  }

  lemma {:induction false} StepSeqs(m: Mutex, e: Event)
    requires Enabled(m, e) && SeqsOk(m)
    ensures SeqsOk(Apply(m, e)) && m.writerFutex <= Apply(m, e).writerFutex
  {
    var m' := Apply(m, e);
    forall i | 0 <= i < |m'.threads| ensures SeqOk(m'.threads[i], m'.writerFutex) {
      assert SeqOk(m.threads[i], m.writerFutex);
    }
  }

  /** Where the state comes from when the mark is set after a step. */
  lemma {:induction false} MarkSource(m: Mutex, e: Event)
    requires Enabled(m, e) && Exclusive(m) && |m.threads| < WRITER_WAITING && Waiting(Apply(m, e).state)
    ensures e.OrWaiting? || Waiting(m.state)
    ensures Apply(m, e).state == WRITER_WAITING ==>
              m.state == WRITER_WAITING || e.OrWaiting? || Apply(m, e).threads[e.t].PokeWriter?
  {
    var m' := Apply(m, e);
    BitFacts(m.state);
    if e.UnlockSharedSub? {
      SumAtLeast(m.threads, e.t, HoldsRead);
      Pack(Readers(m.state) - 1, Waiting(m.state), Holding(m.state));
      if m'.state == WRITER_WAITING { Pack(1, true, false); }
    } else if e.CasState? && m'.state != m.state {
      Pack(0, false, true);
      ReaderTakesUnmarked(m, e);
    }
  }

  /** A reader adds itself only to a word without flags. */
  lemma {:induction false} ReaderTakesUnmarked(m: Mutex, e: Event)
    requires Enabled(m, e) && e.CasState? && Exclusive(m) && |m.threads| < WRITER_WAITING
    requires m.threads[e.t].SharedCas? || m.threads[e.t].TryShared?
    ensures Apply(m, e).state == m.state || !Waiting(Apply(m, e).state)
  {
    StepExclusive(m, e);
    BitFacts(m.state);
    assert CasOk(m.threads[e.t]);
    ReadersFit(m.threads, e.t);
    Pack(Readers(m.state) + 1, false, false);
  }

  /** A thread leaves lock only by taking the lock, which removes the mark. */
  lemma {:induction false} InLockStays(m: Mutex, e: Event)
    requires Enabled(m, e) && AnyInLock(m.threads)
    ensures AnyInLock(Apply(m, e).threads) || Apply(m, e).state == WRITER_HOLDING
  {
    hide Waiting, Readers, Holding;
    var m' := Apply(m, e);
    var i :| 0 <= i < |m.threads| && InLock(m.threads[i]);
    if m'.state != WRITER_HOLDING { assert InLock(m'.threads[i]); }
  }

  lemma {:induction false} StepInLock(m: Mutex, e: Event)
    requires Enabled(m, e) && Exclusive(m) && |m.threads| < WRITER_WAITING && Marked(m)
    ensures Waiting(Apply(m, e).state) ==> AnyInLock(Apply(m, e).threads)
  {
    hide Exclusive, Attended;
    var m' := Apply(m, e);
    if Waiting(m'.state) {
      MarkSource(m, e);
      Pack(0, false, true);
      if e.OrWaiting? { assert InLock(m'.threads[e.t]); } else { InLockStays(m, e); }
    }
  }

  /** The increment of writer_futex_ makes every writer inside lock alert or stale. */
  lemma {:induction false} BumpAttends(m: Mutex, e: Event)
    requires Enabled(m, e) && e.BumpFutex? && m.threads[e.t].PokeWriter? && SeqsOk(m) && AnyInLock(m.threads)
    ensures Attended(Apply(m, e))
  {
    var m' := Apply(m, e);
    var i :| 0 <= i < |m.threads| && InLock(m.threads[i]);
    assert SeqOk(m.threads[i], m.writerFutex);
    assert m'.threads[i] == m.threads[i] && m'.threads[e.t].WakeWriter?;
    assert Alert(m'.threads[i], m'.writerFutex) || Stale(m'.threads[i], m'.writerFutex);
  }

  lemma {:induction false} ReleaseGoesOn(m: Mutex, e: Event)
    requires Enabled(m, e) && AnyReleases(m.threads) && !(e.BumpFutex? && m.threads[e.t].PokeWriter?)
    ensures AnyReleases(Apply(m, e).threads)
  {
    var i :| 0 <= i < |m.threads| && Releases(m.threads[i]);
    assert Releases(Apply(m, e).threads[i]);
  }

  /** On the free, marked lock an alert writer stays alert until it takes the lock. */
  lemma {:induction false} AlertGoesOn(m: Mutex, e: Event)
    requires Enabled(m, e) && SeqsOk(m) && AnyAlert(m.threads, m.writerFutex)
    requires m.state == WRITER_WAITING && Apply(m, e).state == WRITER_WAITING
    ensures AnyAlert(Apply(m, e).threads, Apply(m, e).writerFutex)
  {
    var m' := Apply(m, e);
    var i :| 0 <= i < |m.threads| && Alert(m.threads[i], m.writerFutex);
    assert SeqOk(m.threads[i], m.writerFutex);
    Pack(0, true, false);
    assert Alert(m'.threads[i], m'.writerFutex);
  }

  /** A pending wake-up stays pending, or has woken somebody, who is now alert. */
  lemma {:induction false} WakingGoesOn(m: Mutex, e: Event)
    requires Enabled(m, e) && AnyWaking(m.threads) && AnyStale(m.threads, m.writerFutex)
    ensures Attended(Apply(m, e))
  {
    var m' := Apply(m, e);
    var i :| 0 <= i < |m.threads| && m.threads[i].WakeWriter?;
    var k :| 0 <= k < |m.threads| && Stale(m.threads[k], m.writerFutex);
    if e.WakeOneWriter? {
      assert Alert(m'.threads[e.pick], m'.writerFutex);
    } else {
      assert m'.threads[i].WakeWriter?;
      assert Stale(m'.threads[k], m'.writerFutex) || Alert(m'.threads[k], m'.writerFutex);
    }
  }

  lemma {:induction false} StepAttended(m: Mutex, e: Event)
    requires Enabled(m, e) && Exclusive(m) && |m.threads| < WRITER_WAITING && Marked(m)
    requires Apply(m, e).state == WRITER_WAITING
    ensures Attended(Apply(m, e))
  {
    hide Exclusive, AnyReleases, AnyAlert, AnyWaking, AnyStale, AnyInLock, SeqsOk;
    var m' := Apply(m, e);
    Pack(0, true, false);
    MarkSource(m, e);
    if e.OrWaiting? {
      assert AnyAlert(m'.threads, m'.writerFutex) by { OwnAlert(m', e.t); }
    } else if m.state != WRITER_WAITING {
      assert AnyReleases(m'.threads) by { OwnRelease(m', e.t); }
    } else if e.BumpFutex? && m.threads[e.t].PokeWriter? {
      BumpAttends(m, e);
    } else if AnyReleases(m.threads) {
      ReleaseGoesOn(m, e);
    } else if AnyAlert(m.threads, m.writerFutex) {
      AlertGoesOn(m, e);
    } else {
      WakingGoesOn(m, e);
    }
  }

  lemma {:induction false} OwnAlert(m: Mutex, t: nat)
    requires t < |m.threads| && m.threads[t].ExclSeq?
    ensures AnyAlert(m.threads, m.writerFutex)
  {
    assert Alert(m.threads[t], m.writerFutex);
  }

  lemma {:induction false} OwnRelease(m: Mutex, t: nat)
    requires t < |m.threads| && m.threads[t].PokeWriter?
    ensures AnyReleases(m.threads)
  {
    assert Releases(m.threads[t]);
  }

  /** Every step of every thread keeps a free, marked lock attended. */
  lemma {:induction false} StepMarked(m: Mutex, e: Event)
    requires Enabled(m, e) && Exclusive(m) && |m.threads| < WRITER_WAITING && Marked(m)
    ensures Marked(Apply(m, e))
  {
    hide Exclusive, Attended, AnyInLock, Apply;
    StepSeqs(m, e);
    StepInLock(m, e);
    if Apply(m, e).state == WRITER_WAITING { StepAttended(m, e); }
  }

  lemma {:induction false} RunMarked(m: Mutex, es: seq<Event>)
    requires Inv(m) && Marked(m) && IsRun(m, es) && |m.threads| < WRITER_WAITING
    ensures Inv(Exec(m, es)) && Marked(Exec(m, es))
    decreases |es|
  {
    hide Exclusive, ReadersCovered, Marked, Apply, Enabled;
    if es == [] {
    } else {
      StepExclusive(m, es[0]);
      StepCovered(m, es[0]);
      StepMarked(m, es[0]);
      RunMarked(Apply(m, es[0]), es[1..]);
    }
  }

  /** Owns the lock, or is awake inside a call. */
  predicate Active(p: Pc) { !p.Out? && !p.SharedAsleep? && !p.ExclAsleep? }

  /** Whatever calls are used: in every run, while a reader sleeps, somebody owns the lock or is awake inside a call. */
  lemma {:induction false} ReadersAreNeverStranded(n: nat, es: seq<Event>, i: nat)
    requires n < WRITER_WAITING && IsRun(Start(n), es)
    requires i < n && Exec(Start(n), es).threads[i].SharedAsleep?
    ensures exists j :: 0 <= j < n && Active(Exec(Start(n), es).threads[j])
  {
    hide IsRun, Exec;
    var m := Exec(Start(n), es);
    StartInv(n);
    RunMarked(Start(n), es);
    ReadersLoseNoWakeup(n, es, i);
    BitFacts(m.state);
    var r, w := Sum(m.threads, HoldsRead), Sum(m.threads, HoldsWrite);
    if w > 0 {
      var j := SumPositive(m.threads, HoldsWrite);
      assert Active(m.threads[j]);
    } else if r > 0 {
      var j := SumPositive(m.threads, HoldsRead);
      assert Active(m.threads[j]);
    } else if m.state == WRITER_WAITING {
      AttendedIsActive(m);
    } else {
      var j :| 0 <= j < n && WillWakeReaders(m.threads[j]);
      assert Active(m.threads[j]);
    }
  }

  lemma {:induction false} AttendedIsActive(m: Mutex)
    requires Attended(m)
    ensures exists j :: 0 <= j < |m.threads| && Active(m.threads[j])
  {
    if AnyReleases(m.threads) {
      var j :| 0 <= j < |m.threads| && Releases(m.threads[j]);
      assert Active(m.threads[j]);
    } else if AnyAlert(m.threads, m.writerFutex) {
      var j :| 0 <= j < |m.threads| && Alert(m.threads[j], m.writerFutex);
      assert Active(m.threads[j]);
    } else {
      var j :| 0 <= j < |m.threads| && m.threads[j].WakeWriter?;
      assert Active(m.threads[j]);
    }
  }
}
