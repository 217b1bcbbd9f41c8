/**
 FutexRwMutex (src/rw_mutex.cpp) as an interleaving of atomic instructions on its three words.

 state_ packs the reader count into bits 0..28, "writer waiting" into bit 29 and "writer holding"
 into bit 30.  Fewer than 2^29 threads exist, so the reader count cannot reach the flag bits.
 Steps interleave sequentially consistently; the two futex words count without wrapping.
 */
module RwMutex {
  import opened Tally

  const WRITER_WAITING := 0x2000_0000
  const WRITER_HOLDING := 0x4000_0000

  function Readers(state: int): int { state % WRITER_WAITING }
  predicate Waiting(state: int) { state / WRITER_WAITING % 2 == 1 }
  predicate Holding(state: int) { state / WRITER_HOLDING % 2 == 1 }

  /** What a thread owns between calls, or the instruction it executes next inside one. */
  datatype Pc =
    | Out
    | Reading
    | Writing
    // lock_shared
    | SharedLoad
    | SharedCas(state: int)
    | SharedSeq
    | SharedReload(seq_: int)
    | SharedWait(seq_: int)
    | SharedAsleep(seq_: int)
    // try_lock_shared
    | TryShared(state: int)
    // unlock_shared, after its fetch_sub
    | PokeWriter
    | WakeWriter
    // lock
    | ExclLoad
    | ExclCasFree
    | ExclMark
    | ExclSeq
    | ExclReload(seq_: int)
    | ExclWait(seq_: int)
    | ExclAsleep(seq_: int)
    | ExclCasWaiting
    // unlock and downgrade, after their store; `keep` says that a read lock is kept
    | BumpReaders(keep: bool)
    | WakeReaders(keep: bool)

  datatype Mutex = Mutex(state: int, readerFutex: int, writerFutex: int, threads: seq<Pc>)

  datatype Event =
    | CallLockShared(t: nat)
    | CallTryLockShared(t: nat)
    | CallLock(t: nat)
    | TryLock(t: nat)
    | TryUpgrade(t: nat)
    | UnlockSharedSub(t: nat)
    | UnlockStore(t: nat)
    | DowngradeStore(t: nat)
    | LoadState(t: nat)
    | CasState(t: nat, spurious: bool)
    | OrWaiting(t: nat)
    | LoadFutex(t: nat)
    | BumpFutex(t: nat)
    | Wait(t: nat)
    | Interrupt(t: nat)
    | WakeAllReaders(t: nat)
    | WakeOneWriter(t: nat, pick: nat)

  function Start(n: nat): Mutex { Mutex(0, 0, 0, seq(n, i => Out)) }

  function Put(m: Mutex, t: nat, p: Pc): Mutex
    requires t < |m.threads|
  {
    m.(threads := m.threads[t := p])
  }

  /** FUTEX_WAKE(INT_MAX) on reader_futex_. */
  function WakeReadersOf(threads: seq<Pc>): (r: seq<Pc>)
    ensures |r| == |threads|
    ensures forall i :: 0 <= i < |threads| ==> r[i] == if threads[i].SharedAsleep? then SharedLoad else threads[i]
  {
    seq(|threads|, i requires 0 <= i < |threads| => if threads[i].SharedAsleep? then SharedLoad else threads[i])
  }

  predicate Enabled(m: Mutex, e: Event) {
    && e.t < |m.threads|
    && var p := m.threads[e.t];
       match e
       case CallLockShared(_) => p.Out?
       case CallTryLockShared(_) => p.Out?
       case CallLock(_) => p.Out?
       case TryLock(_) => p.Out?
       case TryUpgrade(_) => p.Reading?
       case UnlockSharedSub(_) => p.Reading?
       case UnlockStore(_) => p.Writing?
       case DowngradeStore(_) => p.Writing?
       case LoadState(_) => p.SharedLoad? || p.SharedReload? || p.ExclLoad? || p.ExclReload?
       case CasState(_, spurious) =>
         p.SharedCas? || p.TryShared? || p.ExclCasFree? || (p.ExclCasWaiting? && !spurious)
       case OrWaiting(_) => p.ExclMark?
       case LoadFutex(_) => p.SharedSeq? || p.ExclSeq?
       case BumpFutex(_) => p.BumpReaders? || p.PokeWriter?
       case Wait(_) => p.SharedWait? || p.ExclWait?
       case Interrupt(_) => p.SharedAsleep? || p.ExclAsleep?
       case WakeAllReaders(_) => p.WakeReaders?
       case WakeOneWriter(_, pick) =>
         p.WakeWriter? && ( (pick < |m.threads| && m.threads[pick].ExclAsleep?)
                            || forall i :: 0 <= i < |m.threads| ==> !m.threads[i].ExclAsleep?)
  }

  predicate FlagsClear(state: int) { !Holding(state) && !Waiting(state) }

  /** try_lock_shared gives up as soon as it sees a flag. */
  function TryAfter(seen: int): Pc { if FlagsClear(seen) then TryShared(seen) else Out }

  function AfterLoad(p: Pc, seen: int): Pc
    requires p.SharedLoad? || p.SharedReload? || p.ExclLoad? || p.ExclReload?
  {
    match p
    case SharedLoad => if FlagsClear(seen) then SharedCas(seen) else SharedSeq
    case SharedReload(q) => if FlagsClear(seen) then SharedLoad else SharedWait(q)
    case ExclLoad => if seen == 0 then ExclCasFree else if Waiting(seen) then ExclSeq else ExclMark
    case ExclReload(q) => if Readers(seen) != 0 || Holding(seen) then ExclWait(q) else ExclCasWaiting
  }

  function Apply(m: Mutex, e: Event): (m': Mutex)
    requires Enabled(m, e)
    ensures |m'.threads| == |m.threads|
  {
    var p := m.threads[e.t];
    match e
    case CallLockShared(t) => Put(m, t, SharedLoad)
    case CallTryLockShared(t) => Put(m, t, TryAfter(m.state))
    case CallLock(t) => Put(m, t, ExclLoad)
    case TryLock(t) => if m.state == 0 then Put(m, t, Writing).(state := WRITER_HOLDING) else m
    case TryUpgrade(t) => if m.state == 1 then Put(m, t, Writing).(state := WRITER_HOLDING) else m
    case UnlockSharedSub(t) =>
      Put(m, t, if Readers(m.state) - 1 == 0 && Waiting(m.state) then PokeWriter else Out).(state := m.state - 1)
    case UnlockStore(t) => Put(m, t, BumpReaders(false)).(state := 0)
    case DowngradeStore(t) => Put(m, t, BumpReaders(true)).(state := 1)
    case LoadState(t) => Put(m, t, AfterLoad(p, m.state))
    case CasState(t, spurious) => (
      match p
      case SharedCas(seen) =>
        if m.state == seen && !spurious then Put(m, t, Reading).(state := m.state + 1) else Put(m, t, SharedLoad)
      case TryShared(seen) =>
        if m.state == seen && !spurious then Put(m, t, Reading).(state := m.state + 1) else Put(m, t, TryAfter(m.state))
      case ExclCasFree =>
        if m.state == 0 && !spurious then Put(m, t, Writing).(state := WRITER_HOLDING) else Put(m, t, ExclLoad)
      case ExclCasWaiting =>
        if m.state == WRITER_WAITING then Put(m, t, Writing).(state := WRITER_HOLDING) else Put(m, t, ExclLoad))
    case OrWaiting(t) =>
      Put(m, t, ExclSeq).(state := if Waiting(m.state) then m.state else m.state + WRITER_WAITING)
    case LoadFutex(t) => Put(m, t, if p.SharedSeq? then SharedReload(m.readerFutex) else ExclReload(m.writerFutex))
    case BumpFutex(t) =>
      if p.BumpReaders? then Put(m, t, WakeReaders(p.keep)).(readerFutex := m.readerFutex + 1)
      else Put(m, t, WakeWriter).(writerFutex := m.writerFutex + 1)
    case Wait(t) =>
      if p.SharedWait? then Put(m, t, if m.readerFutex == p.seq_ then SharedAsleep(p.seq_) else SharedLoad)
      else Put(m, t, if m.writerFutex == p.seq_ then ExclAsleep(p.seq_) else ExclLoad)
    // an interrupted wait is repeated with the same expected value
    case Interrupt(t) => Put(m, t, if p.SharedAsleep? then SharedWait(p.seq_) else ExclWait(p.seq_))
    case WakeAllReaders(t) =>
      Put(m.(threads := WakeReadersOf(m.threads)), t, if p.keep then Reading else PokeWriter)
    case WakeOneWriter(t, pick) =>
      Put(if pick < |m.threads| && m.threads[pick].ExclAsleep? then Put(m, pick, ExclLoad) else m, t, Out)
  }

  // Who owns the lock.  A downgraded writer owns a read lock from its store on.
  function HoldsRead(p: Pc): nat {
    if p.Reading? || ((p.BumpReaders? || p.WakeReaders?) && p.keep) then 1 else 0
  }
  function HoldsWrite(p: Pc): nat { if p.Writing? then 1 else 0 }

  /** A thread between its releasing store and its wake-up of the readers. */
  predicate WillWakeReaders(p: Pc) { p.BumpReaders? || p.WakeReaders? }

  ghost predicate Exclusive(m: Mutex) {
    var r, w := Sum(m.threads, HoldsRead), Sum(m.threads, HoldsWrite);
    && 0 <= m.state < 2 * WRITER_HOLDING
    && Readers(m.state) == r
    && (if Holding(m.state) then w == 1 && r == 0 else w == 0)
    && (forall i :: 0 <= i < |m.threads| ==> CasOk(m.threads[i]))
  }

  /** A compare-exchange on behalf of a reader expects a state without flags. */
  predicate CasOk(p: Pc) {
    (p.SharedCas? || p.TryShared?) ==> 0 <= p.state < WRITER_WAITING
  }

  predicate ReaderCovered(m: Mutex, p: Pc, bumper: bool, waker: bool) {
    match p
    case SharedReload(q) => q <= m.readerFutex
    case SharedWait(q) => q <= m.readerFutex && (q == m.readerFutex ==> !FlagsClear(m.state) || bumper)
    case SharedAsleep(q) =>
      && (!FlagsClear(m.state) || waker)
      && q <= m.readerFutex && (q == m.readerFutex ==> !FlagsClear(m.state) || bumper)
    case _ => true
  }

  ghost predicate AnyBumper(ts: seq<Pc>) { exists i :: 0 <= i < |ts| && ts[i].BumpReaders? }
  ghost predicate AnyWaker(ts: seq<Pc>) { exists i :: 0 <= i < |ts| && WillWakeReaders(ts[i]) }

  ghost predicate ReadersCovered(m: Mutex) {
    forall i :: 0 <= i < |m.threads| ==> ReaderCovered(m, m.threads[i], AnyBumper(m.threads), AnyWaker(m.threads))
  }

  lemma {:induction false} BitFacts(state: int)
    requires 0 <= state < 2 * WRITER_HOLDING
    ensures FlagsClear(state) <==> state < WRITER_WAITING
    ensures FlagsClear(state) ==> Readers(state) == state
    ensures state == Readers(state) + (if Waiting(state) then WRITER_WAITING else 0)
                  + (if Holding(state) then WRITER_HOLDING else 0)
    ensures 0 <= Readers(state) < WRITER_WAITING
  {}

  lemma {:induction false} Pack(readers: int, waiting: bool, holding: bool)
    requires 0 <= readers < WRITER_WAITING
    ensures var state := readers + (if waiting then WRITER_WAITING else 0) + (if holding then WRITER_HOLDING else 0);
            Readers(state) == readers && Waiting(state) == waiting && Holding(state) == holding
            && 0 <= state < 2 * WRITER_HOLDING
  {}

  lemma {:induction false} PutSums(ts: seq<Pc>, t: nat, p: Pc)
    requires t < |ts|
    ensures Sum(ts[t := p], HoldsRead) == Sum(ts, HoldsRead) - HoldsRead(ts[t]) + HoldsRead(p)
    ensures Sum(ts[t := p], HoldsWrite) == Sum(ts, HoldsWrite) - HoldsWrite(ts[t]) + HoldsWrite(p)
  {
    SumUpdate(ts, t, p, HoldsRead);
    SumUpdate(ts, t, p, HoldsWrite);
  }

  lemma {:induction false} WakeReadersSums(ts: seq<Pc>)
    ensures Sum(WakeReadersOf(ts), HoldsRead) == Sum(ts, HoldsRead)
    ensures Sum(WakeReadersOf(ts), HoldsWrite) == Sum(ts, HoldsWrite)
  {
    if ts == [] {
    } else {
      assert WakeReadersOf(ts)[1..] == WakeReadersOf(ts[1..]);
      WakeReadersSums(ts[1..]);
    }
  }

  /** All steps but the wake-ups move one thread only. */
  lemma {:induction false} OneThread(m: Mutex, e: Event)
    requires Enabled(m, e) && !e.WakeAllReaders? && !e.WakeOneWriter?
    ensures var m', p := Apply(m, e), m.threads[e.t];
            var p' := m'.threads[e.t];
            && m'.threads == m.threads[e.t := p']
            && Sum(m'.threads, HoldsRead) == Sum(m.threads, HoldsRead) - HoldsRead(p) + HoldsRead(p')
            && Sum(m'.threads, HoldsWrite) == Sum(m.threads, HoldsWrite) - HoldsWrite(p) + HoldsWrite(p')
  {
    var p' := Apply(m, e).threads[e.t];
    assert Apply(m, e).threads == m.threads[e.t := p'];
    PutSums(m.threads, e.t, p');
  }

  lemma {:induction false} WakeAllSums(m: Mutex, e: Event)
    requires Enabled(m, e) && e.WakeAllReaders?
    ensures Sum(Apply(m, e).threads, HoldsRead) == Sum(m.threads, HoldsRead)
    ensures Sum(Apply(m, e).threads, HoldsWrite) == Sum(m.threads, HoldsWrite)
  {
    WakeReadersSums(m.threads);
    PutSums(WakeReadersOf(m.threads), e.t, if m.threads[e.t].keep then Reading else PokeWriter);
  }

  lemma {:induction false} WakeOneSums(m: Mutex, e: Event)
    requires Enabled(m, e) && e.WakeOneWriter?
    ensures Sum(Apply(m, e).threads, HoldsRead) == Sum(m.threads, HoldsRead)
    ensures Sum(Apply(m, e).threads, HoldsWrite) == Sum(m.threads, HoldsWrite)
  {
    if e.pick < |m.threads| && m.threads[e.pick].ExclAsleep? {
      PutSums(m.threads, e.pick, ExclLoad);
      PutSums(m.threads[e.pick := ExclLoad], e.t, Out);
    } else {
      PutSums(m.threads, e.t, Out);
    }
  }

  /** The number of readers stays below the flag bits because there are fewer than 2^29 threads. */
  lemma {:induction false} ReadersFit(ts: seq<Pc>, t: nat)
    requires |ts| < WRITER_WAITING && t < |ts| && HoldsRead(ts[t]) == 0
    ensures Sum(ts, HoldsRead) + 1 < WRITER_WAITING
  {
    PutSums(ts, t, Reading);
    SumAtMost(ts[t := Reading], HoldsRead, 1);
  }

  lemma {:induction false} GainRead(m: Mutex, e: Event)
    requires Enabled(m, e) && Exclusive(m) && |m.threads| < WRITER_WAITING
    requires e.CasState? && (m.threads[e.t].SharedCas? || m.threads[e.t].TryShared?)
    ensures Exclusive(Apply(m, e))
  {
    OneThread(m, e);
    BitFacts(m.state);
    ReadersFit(m.threads, e.t);
    Pack(Readers(m.state) + 1, false, false);
  }

  lemma {:induction false} GainWrite(m: Mutex, e: Event)
    requires Enabled(m, e) && Exclusive(m)
    requires e.TryLock? || e.TryUpgrade?
          || (e.CasState? && (m.threads[e.t].ExclCasFree? || m.threads[e.t].ExclCasWaiting?))
    ensures Exclusive(Apply(m, e))
  {
    OneThread(m, e);
    BitFacts(m.state);
    Pack(0, false, true);
    if e.TryUpgrade? { SumAtLeast(m.threads, e.t, HoldsRead); }
  }

  lemma {:induction false} MarkExclusive(m: Mutex, e: Event)
    requires Enabled(m, e) && Exclusive(m) && e.OrWaiting?
    ensures Exclusive(Apply(m, e))
  {
    OneThread(m, e);
    BitFacts(m.state);
    Pack(Readers(m.state), true, Holding(m.state));
  }

  /** Steps that leave state_ alone. */
  lemma {:induction false} QuietExclusive(m: Mutex, e: Event)
    requires Enabled(m, e) && Exclusive(m)
    requires e.CallLockShared? || e.CallTryLockShared? || e.CallLock? || e.LoadState?
    ensures Exclusive(Apply(m, e))
  {
    OneThread(m, e);
    BitFacts(m.state);
    assert CasOk(Apply(m, e).threads[e.t]);
  }

  lemma {:induction false} FutexExclusive(m: Mutex, e: Event)
    requires Enabled(m, e) && Exclusive(m) && (e.LoadFutex? || e.BumpFutex? || e.Wait? || e.Interrupt?)
    ensures Exclusive(Apply(m, e))
  {
    hide Readers, Holding;
    OneThread(m, e);
    assert CasOk(Apply(m, e).threads[e.t]);
  }

  lemma {:induction false} LoseExclusive(m: Mutex, e: Event)
    requires Enabled(m, e) && Exclusive(m) && (e.UnlockSharedSub? || e.UnlockStore? || e.DowngradeStore?)
    ensures Exclusive(Apply(m, e))
  {
    OneThread(m, e);
    BitFacts(m.state);
    if e.UnlockSharedSub? {
      SumAtLeast(m.threads, e.t, HoldsRead);
      Pack(Readers(m.state) - 1, Waiting(m.state), Holding(m.state));
    } else {
      SumAtLeast(m.threads, e.t, HoldsWrite);
      Pack(1, false, false);
    }
  }

  /** Every step of every thread keeps exclusion. */
  lemma {:induction false} StepExclusive(m: Mutex, e: Event)
    requires Enabled(m, e) && Exclusive(m) && |m.threads| < WRITER_WAITING
    ensures Exclusive(Apply(m, e))
  {
    match e
    case WakeAllReaders(_) => WakeAllSums(m, e);
    case WakeOneWriter(_, _) => WakeOneSums(m, e);
    case TryLock(_) => GainWrite(m, e);
    case TryUpgrade(_) => GainWrite(m, e);
    case CasState(_, _) =>
      if m.threads[e.t].SharedCas? || m.threads[e.t].TryShared? { GainRead(m, e); } else { GainWrite(m, e); }
    case OrWaiting(_) => MarkExclusive(m, e);
    case UnlockSharedSub(_) => LoseExclusive(m, e);
    case UnlockStore(_) => LoseExclusive(m, e);
    case DowngradeStore(_) => LoseExclusive(m, e);
    case LoadFutex(_) => FutexExclusive(m, e);
    case BumpFutex(_) => FutexExclusive(m, e);
    case Wait(_) => FutexExclusive(m, e);
    case Interrupt(_) => FutexExclusive(m, e);
    case _ => QuietExclusive(m, e);
  }

  /** Only the stores of unlock and downgrade can clear the last flag. */
  lemma {:induction false} FlagsPersist(m: Mutex, e: Event)
    requires Enabled(m, e) && Exclusive(m) && |m.threads| < WRITER_WAITING
    requires !FlagsClear(m.state) && !e.UnlockStore? && !e.DowngradeStore?
    ensures !FlagsClear(Apply(m, e).state)
  {
    StepExclusive(m, e);
    BitFacts(m.state);
    BitFacts(Apply(m, e).state);
    if e.UnlockSharedSub? {
      SumAtLeast(m.threads, e.t, HoldsRead);
    }
  }

  lemma {:induction false} StepCovered(m: Mutex, e: Event)
    requires Enabled(m, e) && Exclusive(m) && ReadersCovered(m) && |m.threads| < WRITER_WAITING
    ensures ReadersCovered(Apply(m, e))
  {
    var m' := Apply(m, e);
    if !FlagsClear(m.state) && !e.UnlockStore? && !e.DowngradeStore? { FlagsPersist(m, e); }
    forall i | 0 <= i < |m'.threads|
      ensures ReaderCovered(m', m'.threads[i], AnyBumper(m'.threads), AnyWaker(m'.threads))
    {
      assert ReaderCovered(m, m.threads[i], AnyBumper(m.threads), AnyWaker(m.threads));
      WitnessesStay(m, e);
    }
  }

  /** A pending bump stays pending until it happens; a pending wake-up until it happens. */
  lemma {:induction false} WitnessesStay(m: Mutex, e: Event)
    requires Enabled(m, e)
    ensures AnyBumper(m.threads) && !(e.BumpFutex? && m.threads[e.t].BumpReaders?) ==> AnyBumper(Apply(m, e).threads)
    ensures AnyWaker(m.threads) && !e.WakeAllReaders? ==> AnyWaker(Apply(m, e).threads)
    ensures e.UnlockStore? || e.DowngradeStore? ==> Apply(m, e).threads[e.t].BumpReaders?
  {
    var m' := Apply(m, e);
    if AnyBumper(m.threads) {
      var i :| 0 <= i < |m.threads| && m.threads[i].BumpReaders?;
      assert !(e.BumpFutex? && i == e.t) ==> m'.threads[i].BumpReaders?;
    }
    if AnyWaker(m.threads) {
      var i :| 0 <= i < |m.threads| && WillWakeReaders(m.threads[i]);
      assert !e.WakeAllReaders? ==> WillWakeReaders(m'.threads[i]);
    }
  }

  // Runs

  ghost predicate Inv(m: Mutex) { Exclusive(m) && ReadersCovered(m) }

  predicate IsRun(m: Mutex, es: seq<Event>)
    decreases |es|
  {
    es == [] || (Enabled(m, es[0]) && IsRun(Apply(m, es[0]), es[1..]))
  }

  function Exec(m: Mutex, es: seq<Event>): (m': Mutex)
    requires IsRun(m, es)
    ensures |m'.threads| == |m.threads|
    decreases |es|
  {
    if es == [] then m else Exec(Apply(m, es[0]), es[1..])
  }

  lemma {:induction false} StartInv(n: nat)
    ensures Inv(Start(n))
  {
    SumZero(Start(n).threads, HoldsRead);
    SumZero(Start(n).threads, HoldsWrite);
  }

  lemma {:induction false} RunInv(m: Mutex, es: seq<Event>)
    requires Inv(m) && IsRun(m, es) && |m.threads| < WRITER_WAITING
    ensures Inv(Exec(m, es))
    decreases |es|
  {
    if es == [] {
    } else {
      StepExclusive(m, es[0]);
      StepCovered(m, es[0]);
      RunInv(Apply(m, es[0]), es[1..]);
    }
  }

  /**
   Mutual exclusion in every run: state_ holds exactly the number of read owners and the
   ownership flag, two writers never coexist, and a writer excludes all readers.
   */
  lemma {:induction false} Exclusion(n: nat, es: seq<Event>)
    requires n < WRITER_WAITING && IsRun(Start(n), es)
    ensures var m := Exec(Start(n), es);
            && Readers(m.state) == Sum(m.threads, HoldsRead)
            && (Holding(m.state) <==> exists i :: 0 <= i < n && m.threads[i].Writing?)
            && (forall i, j :: 0 <= i < n && 0 <= j < n && i != j && m.threads[i].Writing? ==>
                  !m.threads[j].Writing? && HoldsRead(m.threads[j]) == 0)
  {
    StartInv(n);
    RunInv(Start(n), es);
    var m := Exec(Start(n), es);
    if Holding(m.state) { var i := SumPositive(m.threads, HoldsWrite); }
    forall i | 0 <= i < n && m.threads[i].Writing?
      ensures Holding(m.state)
      ensures forall j :: 0 <= j < n && i != j ==> !m.threads[j].Writing? && HoldsRead(m.threads[j]) == 0
    {
      SumAtLeast(m.threads, i, HoldsWrite);
      forall j | 0 <= j < n && i != j ensures !m.threads[j].Writing? && HoldsRead(m.threads[j]) == 0 {
        SumAtLeastTwo(m.threads, if i < j then i else j, if i < j then j else i, HoldsWrite);
        SumAtLeast(m.threads, j, HoldsRead);
      }
    }
  }

  /**
   No reader misses its wake-up: if one sleeps while no writer flag is set, some unlock or
   downgrade has stored its new state and has yet to wake all readers.
   */
  lemma {:induction false} ReadersLoseNoWakeup(n: nat, es: seq<Event>, i: nat)
    requires n < WRITER_WAITING && IsRun(Start(n), es)
    requires i < n && Exec(Start(n), es).threads[i].SharedAsleep?
    ensures var m := Exec(Start(n), es);
            || Holding(m.state) || Waiting(m.state)
            || exists j :: 0 <= j < n && WillWakeReaders(m.threads[j])
  {
    StartInv(n);
    RunInv(Start(n), es);
    var m := Exec(Start(n), es);
    assert ReaderCovered(m, m.threads[i], AnyBumper(m.threads), AnyWaker(m.threads));
  }

  // What the calls return

  predicate InLockShared(p: Pc) {
    p.SharedLoad? || p.SharedCas? || p.SharedSeq? || p.SharedReload? || p.SharedWait? || p.SharedAsleep?
  }

  predicate InLock(p: Pc) {
    || p.ExclLoad? || p.ExclCasFree? || p.ExclMark? || p.ExclSeq? || p.ExclReload? || p.ExclWait? || p.ExclAsleep?
    || p.ExclCasWaiting?
  }

  /** lock_shared ends only with a read lock and lock only with the write lock. */
  lemma {:induction false} BlockingCallsEndWithTheLock(m: Mutex, e: Event, i: nat)
    requires Enabled(m, e) && i < |m.threads|
    ensures InLockShared(m.threads[i]) ==> InLockShared(Apply(m, e).threads[i]) || Apply(m, e).threads[i].Reading?
    ensures InLock(m.threads[i]) ==> InLock(Apply(m, e).threads[i]) || Apply(m, e).threads[i].Writing?
  {}

  /** Every call starts where its first instruction is. */
  lemma {:induction false} CallsStart(m: Mutex, t: nat)
    requires t < |m.threads| && m.threads[t].Out?
    ensures InLockShared(Apply(m, CallLockShared(t)).threads[t]) && InLock(Apply(m, CallLock(t)).threads[t])
  {}

  /** try_lock_shared fails only when it sees a flag; other readers never make it fail. */
  lemma {:induction false} TryLockSharedFailsOnlyOnFlags(m: Mutex, e: Event)
    requires Enabled(m, e) && (e.CallTryLockShared? || (e.CasState? && m.threads[e.t].TryShared?))
    ensures var p' := Apply(m, e).threads[e.t];
            && (p'.Out? ==> Holding(m.state) || Waiting(m.state))
            && (p'.Out? || p'.Reading? || p' == TryShared(m.state))
            && (e.CallTryLockShared? ==> (p'.Out? <==> Holding(m.state) || Waiting(m.state)))
  {}

  /** On a word without flags, load and exchange of a reader let it in beside all other readers. */
  lemma {:induction false} ReaderEntersUnflagged(m: Mutex, t: nat)
    requires t < |m.threads| && (m.threads[t].SharedLoad? || m.threads[t].Out?) && FlagsClear(m.state)
    ensures var m' := Apply(m, if m.threads[t].Out? then CallTryLockShared(t) else LoadState(t));
            && Enabled(m', CasState(t, false))
            && Apply(m', CasState(t, false)).threads[t].Reading?
            && Apply(m', CasState(t, false)).state == m.state + 1
  {}

  /** A reader that finds a flag, before and after it has read the futex word, sleeps unless the word has changed. */
  lemma {:induction false} ReaderSleepsBehindFlags(m: Mutex, t: nat)
    requires t < |m.threads| && m.threads[t].SharedLoad? && !FlagsClear(m.state)
    ensures var m3 := Apply(Apply(Apply(m, LoadState(t)), LoadFutex(t)), LoadState(t));
            && Enabled(m3, Wait(t))
            && Apply(m3, Wait(t)).threads[t] == SharedAsleep(m.readerFutex)
  {}

  /** The wake of all readers sends every sleeping reader back to look at the state, and nobody else. */
  lemma {:induction false} WakeAllWakesReaders(m: Mutex, t: nat, i: nat)
    requires Enabled(m, WakeAllReaders(t)) && i < |m.threads| && i != t
    ensures Apply(m, WakeAllReaders(t)).threads[i] == if m.threads[i].SharedAsleep? then SharedLoad else m.threads[i]
  {}

  /** try_lock succeeds exactly when nobody owns the lock and no writer is marked as waiting. */
  lemma {:induction false} TryLockOutcome(m: Mutex, t: nat)
    requires Exclusive(m) && Enabled(m, TryLock(t))
    ensures var free := Sum(m.threads, HoldsRead) == 0 && Sum(m.threads, HoldsWrite) == 0 && !Waiting(m.state);
            Apply(m, TryLock(t)) == if free then Put(m, t, Writing).(state := WRITER_HOLDING) else m
  {
    BitFacts(m.state);
  }

  /** try_upgrade succeeds exactly when its caller is the only reader and no writer is marked as waiting. */
  lemma {:induction false} TryUpgradeOutcome(m: Mutex, t: nat)
    requires Exclusive(m) && Enabled(m, TryUpgrade(t))
    ensures var alone := Sum(m.threads, HoldsRead) == 1 && !Waiting(m.state);
            Apply(m, TryUpgrade(t)) == if alone then Put(m, t, Writing).(state := WRITER_HOLDING) else m
  {
    BitFacts(m.state);
    SumAtLeast(m.threads, t, HoldsRead);
  }

  /** A writer sleeps only behind an owner, and takes the free lock, marked or not. */
  lemma {:induction false} WriterTakesFreeLock(m: Mutex, t: nat)
    requires t < |m.threads|
    ensures m.threads[t].ExclLoad? && m.state == 0 ==>
              && Enabled(Apply(m, LoadState(t)), CasState(t, false))
              && Apply(Apply(m, LoadState(t)), CasState(t, false)).threads[t].Writing?
    ensures m.threads[t].ExclReload? && m.state == WRITER_WAITING ==>
              && Enabled(Apply(m, LoadState(t)), CasState(t, false))
              && Apply(Apply(m, LoadState(t)), CasState(t, false)).threads[t].Writing?
    ensures m.threads[t].ExclReload? && Apply(m, LoadState(t)).threads[t].ExclWait? ==>
              Readers(m.state) != 0 || Holding(m.state)
  {
    Pack(0, true, false);
  }

  lemma {:induction false} Extend(m: Mutex, es: seq<Event>, e: Event)
    requires IsRun(m, es) && Enabled(Exec(m, es), e)
    ensures IsRun(m, es + [e]) && Exec(m, es + [e]) == Apply(Exec(m, es), e)
    decreases |es|
  {
    if es == [] {
      assert es + [e] == [e] && [e][1..] == [];
    } else {
      assert (es + [e])[1..] == es[1..] + [e];
      Extend(Apply(m, es[0]), es[1..], e);
    }
  }

  /** The object itself: three atomic words, one method per kind of atomic instruction. */
  class FutexRwMutex {
    var state: int
    var readerFutex: int
    var writerFutex: int
    ghost var threads: seq<Pc>

    ghost function View(): Mutex
      reads this
    {
      Mutex(state, readerFutex, writerFutex, threads)
    }

    ghost predicate Valid()
      reads this
    {
      Inv(View()) && |threads| < WRITER_WAITING
    }

    constructor (ghost n: nat)
      requires n < WRITER_WAITING
      ensures View() == Start(n) && Valid()
    {
      state, readerFutex, writerFutex := 0, 0, 0;
      threads := seq(n, i => Out);
      new;
      StartInv(n);
    }

    /** The load that opens lock_shared, try_lock_shared or lock, and every reload of state_. */
    method LoadState(ghost e: Event) returns (seen: int)
      requires Valid() && Enabled(View(), e)
      requires e.LoadState? || e.CallTryLockShared?
      modifies this
      ensures View() == Apply(old(View()), e) && Valid()
      ensures seen == old(state)
    {
      StepExclusive(View(), e);
      StepCovered(View(), e);
      seen := state;
      threads := if e.LoadState? then threads[e.t := AfterLoad(threads[e.t], seen)] else threads[e.t := TryAfter(seen)];
    }

    /** compare_exchange on state_, on behalf of any of the locking calls. */
    method CasState(ghost e: Event, expected: int, desired: int, spurious: bool) returns (ok: bool)
      requires Valid() && Enabled(View(), e) && Cas(threads[e.t], e, expected, desired, spurious)
      modifies this
      ensures View() == Apply(old(View()), e) && Valid()
      ensures ok == (old(state) == expected && !spurious)
      ensures ok ==> state == desired
      ensures !ok ==> state == old(state)
    {
      StepExclusive(View(), e);
      StepCovered(View(), e);
      ok := state == expected && !spurious;
      threads := Apply(View(), e).threads;
      if ok { state := desired; }
    }

    /** unlock_shared: fetch_sub(1); the result says whether a writer must be woken. */
    method UnlockSharedSub(ghost t: nat) returns (poke: bool)
      requires Valid() && Enabled(View(), Event.UnlockSharedSub(t))
      modifies this
      ensures View() == Apply(old(View()), Event.UnlockSharedSub(t)) && Valid()
      ensures poke == threads[t].PokeWriter?
      ensures state == old(state) - 1
      ensures poke <==> Readers(old(state)) == 1 && Waiting(old(state))
    {
      StepExclusive(View(), Event.UnlockSharedSub(t));
      StepCovered(View(), Event.UnlockSharedSub(t));
      var prev := state;
      state := state - 1;
      poke := Readers(prev) - 1 == 0 && Waiting(prev);
      threads := threads[t := if poke then PokeWriter else Out];
    }

    /** The store that releases (unlock, value 0) or weakens (downgrade, value 1) a write lock. */
    method StoreState(ghost e: Event, value: int)
      requires Valid() && Enabled(View(), e)
      requires (e.UnlockStore? && value == 0) || (e.DowngradeStore? && value == 1)
      modifies this
      ensures View() == Apply(old(View()), e) && Valid()
      ensures state == value
    {
      StepExclusive(View(), e);
      StepCovered(View(), e);
      threads := threads[e.t := BumpReaders(e.DowngradeStore?)];
      state := value;
    }

    method OrWaiting(ghost t: nat)
      requires Valid() && Enabled(View(), Event.OrWaiting(t))
      modifies this
      ensures View() == Apply(old(View()), Event.OrWaiting(t)) && Valid()
      ensures state == if Waiting(old(state)) then old(state) else old(state) + WRITER_WAITING
    {
      StepExclusive(View(), Event.OrWaiting(t));
      StepCovered(View(), Event.OrWaiting(t));
      if !Waiting(state) { state := state + WRITER_WAITING; }
      threads := threads[t := ExclSeq];
    }

    method LoadFutex(ghost t: nat, reader: bool) returns (seq_: int)
      requires Valid() && Enabled(View(), Event.LoadFutex(t)) && reader == threads[t].SharedSeq?
      modifies this
      ensures View() == Apply(old(View()), Event.LoadFutex(t)) && Valid()
      ensures seq_ == if reader then old(readerFutex) else old(writerFutex)
    {
      StepExclusive(View(), Event.LoadFutex(t));
      StepCovered(View(), Event.LoadFutex(t));
      seq_ := if reader then readerFutex else writerFutex;
      threads := threads[t := if reader then SharedReload(seq_) else ExclReload(seq_)];
    }

    method BumpFutex(ghost t: nat, reader: bool)
      requires Valid() && Enabled(View(), Event.BumpFutex(t)) && reader == threads[t].BumpReaders?
      modifies this
      ensures View() == Apply(old(View()), Event.BumpFutex(t)) && Valid()
      ensures readerFutex == old(readerFutex) + (if reader then 1 else 0)
      ensures writerFutex == old(writerFutex) + (if reader then 0 else 1)
    {
      StepExclusive(View(), Event.BumpFutex(t));
      StepCovered(View(), Event.BumpFutex(t));
      threads := Apply(View(), Event.BumpFutex(t)).threads;
      if reader { readerFutex := readerFutex + 1; } else { writerFutex := writerFutex + 1; }
    }

    /** FUTEX_WAIT on one of the two futex words. */
    method FutexWait(ghost t: nat, reader: bool, seq_: int) returns (sleeps: bool)
      requires Valid() && Enabled(View(), Event.Wait(t))
      requires reader == threads[t].SharedWait? && seq_ == threads[t].seq_
      modifies this
      ensures View() == Apply(old(View()), Event.Wait(t)) && Valid()
      ensures sleeps == ((if reader then old(readerFutex) else old(writerFutex)) == seq_)
    {
      StepExclusive(View(), Event.Wait(t));
      StepCovered(View(), Event.Wait(t));
      sleeps := (if reader then readerFutex else writerFutex) == seq_;
      threads := Apply(View(), Event.Wait(t)).threads;
    }

    /** Calls that touch no word yet, the two FUTEX_WAKEs, and sleepers interrupted by a signal. */
    ghost method Kernel(e: Event)
      requires Valid() && Enabled(View(), e)
      requires e.CallLockShared? || e.CallLock? || e.WakeAllReaders? || e.WakeOneWriter? || e.Interrupt?
      modifies this
      ensures View() == Apply(old(View()), e) && Valid()
    {
      StepExclusive(View(), e);
      StepCovered(View(), e);
      threads := Apply(View(), e).threads;
    }
  }

  /** The operands of the compare-exchange that event `e` of a thread at `p` performs. */
  ghost predicate Cas(p: Pc, e: Event, expected: int, desired: int, spurious: bool) {
    match e
    case TryLock(_) => expected == 0 && desired == WRITER_HOLDING && !spurious
    case TryUpgrade(_) => expected == 1 && desired == WRITER_HOLDING && !spurious
    case CasState(_, weak) =>
      && spurious == weak
      && (match p
          case SharedCas(seen) => expected == seen && desired == seen + 1
          case TryShared(seen) => expected == seen && desired == seen + 1
          case ExclCasFree => expected == 0 && desired == WRITER_HOLDING
          case ExclCasWaiting => expected == WRITER_WAITING && desired == WRITER_HOLDING && !spurious
          case _ => false)
    case _ => false
  }
}
