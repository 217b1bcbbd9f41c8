/**
 FutexSemaphore (src/semaphore.cpp) as an interleaving of atomic instructions.

 Every load, compare-exchange, fetch-add and futex call is one step; steps of any number of
 threads interleave in any order (sequential consistency, unbounded counters).  FUTEX_WAIT
 compares and sleeps atomically; FUTEX_WAKE(k) wakes min(k, sleepers) threads of the
 kernel's choice.
 */
module Semaphore {
  import opened Tally
  import opened Wrappers

  /** The timeout argument: null, zero, or a positive duration. */
  datatype Timeout = Forever | Poll | Limited

  /** Where a thread stands; each name is the instruction it executes next. */
  datatype Pc =
    | Idle
    // try_acquire_impl
    | Load(timeout: Timeout)
    | Attempt(timeout: Timeout, current: int)
    | Recheck(timeout: Timeout)
    | Retract(timeout: Timeout)
    | Wait(timeout: Timeout, current: int)
    | Asleep(timeout: Timeout)
    | Leave(timeout: Timeout, timedOut: bool)
    // try_acquire
    | TryLoad
    | TryAttempt(current: int)
    // release
    | Add(n: int)
    | Inspect(n: int)
    | Wake(k: int)

  /** The two shared words, the threads, and a ledger of completed calls. */
  datatype Sem = Sem(count: int, waiters: int, threads: seq<Pc>, initial: int, released: int, acquired: int)

  datatype Event =
    | CallAcquire(t: nat, timeout: Timeout)
    | CallTryAcquire(t: nat)
    | CallRelease(t: nat, n: int)
    | LoadCount(t: nat)
    | CasCount(t: nat, spurious: bool)
    | EnterWaiters(t: nat)
    | ReloadCount(t: nat)
    | FutexWait(t: nat)
    | LeaveWaiters(t: nat)
    | FetchAddCount(t: nat)
    | LoadWaiters(t: nat)
    | FutexWake(t: nat, picks: seq<nat>)
    | TimeOut(t: nat)
    | Interrupt(t: nat)

  function Start(count: nat, n: nat): Sem {
    Sem(count, 0, seq(n, i => Idle), count, 0, 0)
  }

  function Min(a: int, b: int): (m: int)
    ensures m <= a && m <= b && (m == a || m == b)
  {
    if a <= b then a else b
  }

  // The weights the invariants add up over all threads.
  function Sleeping(p: Pc): nat { if p.Asleep? then 1 else 0 }

  /** Wakes a release still owes: it has raised the count but not yet called FUTEX_WAKE. */
  function Owed(p: Pc): nat {
    match p
    case Inspect(n) => if n > 0 then n else 0
    case Wake(k) => if k > 0 then k else 0
    case _ => 0
  }

  /** An acquirer that is bound to look at the count again before it sleeps or gives up. */
  function Looking(p: Pc): nat {
    match p
    case Load(_) => 1
    case Attempt(_, current) => if current > 0 then 1 else 0
    case Retract(_) => 1
    case Leave(_, timedOut) => if timedOut then 0 else 1
    case _ => 0
  }

  /** A thread between its increment and its decrement of waiters_. */
  function Registered(p: Pc): nat {
    if p.Recheck? || p.Retract? || p.Wait? || p.Asleep? || p.Leave? then 1 else 0
  }

  ghost function Sleepers(s: Sem): nat { Sum(s.threads, Sleeping) }

  predicate PicksSleepers(threads: seq<Pc>, picks: seq<nat>) {
    && (forall i :: 0 <= i < |picks| ==> picks[i] < |threads| && threads[picks[i]].Asleep?)
    && (forall i, j :: 0 <= i < j < |picks| ==> picks[i] != picks[j])
  }

  function WakeAll(threads: seq<Pc>, picks: seq<nat>): (r: seq<Pc>)
    requires PicksSleepers(threads, picks)
    ensures |r| == |threads|
    decreases |picks|
  {
    if picks == [] then threads
    else
      var p := picks[0];
      WakeAll(threads[p := Leave(threads[p].timeout, false)], picks[1..])
  }

  /** The state an event needs. */
  ghost predicate Enabled(s: Sem, e: Event) {
    && e.t < |s.threads|
    && var p := s.threads[e.t];
       match e
       case CallAcquire(_, _) => p.Idle?
       case CallTryAcquire(_) => p.Idle?
       case CallRelease(_, _) => p.Idle?
       case LoadCount(_) => p.Load? || p.TryLoad?
       case CasCount(_, _) => (p.Attempt? || p.TryAttempt?) && p.current > 0
       case EnterWaiters(_) => p.Attempt? && p.current <= 0 && p.timeout != Poll
       case ReloadCount(_) => p.Recheck?
       case FutexWait(_) => p.Wait?
       case LeaveWaiters(_) => p.Retract? || p.Leave?
       case FetchAddCount(_) => p.Add?
       case LoadWaiters(_) => p.Inspect?
       case FutexWake(_, picks) =>
         p.Wake? && PicksSleepers(s.threads, picks) && |picks| == Min(p.k, Sleepers(s))
       case TimeOut(_) => p.Asleep? && p.timeout == Limited
       case Interrupt(_) => p.Asleep?
  }

  /** Where a thread goes once it knows that the count was `seen`. */
  function After(p: Pc, seen: int): Pc
    requires p.Load? || p.Attempt? || p.TryLoad? || p.TryAttempt?
  {
    if p.Load? || p.Attempt? then
      if seen <= 0 && p.timeout == Poll then Idle else Attempt(p.timeout, seen)
    else
      if seen <= 0 then Idle else TryAttempt(seen)
  }

  function Put(s: Sem, t: nat, p: Pc): Sem
    requires t < |s.threads|
  {
    s.(threads := s.threads[t := p])
  }

  ghost function Apply(s: Sem, e: Event): (s': Sem)
    requires Enabled(s, e)
    ensures |s'.threads| == |s.threads| && s'.initial == s.initial
  {
    var p := s.threads[e.t];
    match e
    case CallAcquire(t, timeout) => Put(s, t, Load(timeout))
    case CallTryAcquire(t) => Put(s, t, TryLoad)
    // release refuses a count that is not positive
    case CallRelease(t, n) => if n <= 0 then s else Put(s, t, Add(n))
    case LoadCount(t) => Put(s, t, After(p, s.count))
    case CasCount(t, spurious) =>
      if s.count == p.current && !spurious
      then Put(s, t, Idle).(count := s.count - 1, acquired := s.acquired + 1)
      else Put(s, t, After(p, s.count))
    case EnterWaiters(t) => Put(s, t, Recheck(p.timeout)).(waiters := s.waiters + 1)
    case ReloadCount(t) => Put(s, t, if s.count > 0 then Retract(p.timeout) else Wait(p.timeout, s.count))
    case FutexWait(t) =>
      Put(s, t, if s.count == p.current then Asleep(p.timeout) else Leave(p.timeout, false))
    case LeaveWaiters(t) =>
      Put(s, t, if p.Leave? && p.timedOut then Idle else Load(p.timeout)).(waiters := s.waiters - 1)
    case FetchAddCount(t) =>
      Put(s, t, if s.count < 0 then Idle else Inspect(p.n)).(count := s.count + p.n, released := s.released + p.n)
    case LoadWaiters(t) => Put(s, t, if s.waiters > 0 then Wake(Min(p.n, s.waiters)) else Idle)
    case FutexWake(t, picks) => Put(s.(threads := WakeAll(s.threads, picks)), t, Idle)
    case TimeOut(t) => Put(s, t, Leave(p.timeout, true))
    case Interrupt(t) => Put(s, t, Leave(p.timeout, false))
  }

  /** What every step keeps.  The last line is the heart: no sleeper can be stranded. */
  ghost predicate Inv(s: Sem) {
    && s.count == s.initial + s.released - s.acquired
    && s.count >= 0
    && s.waiters == Sum(s.threads, Registered)
    && (forall t :: 0 <= t < |s.threads| ==> PcOk(s.threads[t]))
    && ( || Sleepers(s) <= Sum(s.threads, Owed)
         || s.count <= Sum(s.threads, Owed) + Sum(s.threads, Looking))
  }

  predicate PcOk(p: Pc) {
    match p
    case Wait(_, current) => current == 0
    case Add(n) => n > 0
    case Inspect(n) => n > 0
    case Wake(k) => k > 0
    case Attempt(_, current) => current >= 0
    case _ => true
  }

  lemma {:induction false} StartInv(count: nat, n: nat)
    ensures Inv(Start(count, n))
  {
    SumZero(Start(count, n).threads, Registered);
    SumZero(Start(count, n).threads, Sleeping);
  }

  /** Moving one thread changes each sum by exactly that thread's weight. */
  lemma {:induction false} PutSums(ts: seq<Pc>, t: nat, p: Pc)
    requires t < |ts|
    ensures Sum(ts[t := p], Sleeping) == Sum(ts, Sleeping) - Sleeping(ts[t]) + Sleeping(p)
    ensures Sum(ts[t := p], Owed) == Sum(ts, Owed) - Owed(ts[t]) + Owed(p)
    ensures Sum(ts[t := p], Looking) == Sum(ts, Looking) - Looking(ts[t]) + Looking(p)
    ensures Sum(ts[t := p], Registered) == Sum(ts, Registered) - Registered(ts[t]) + Registered(p)
  {
    SumUpdate(ts, t, p, Sleeping);
    SumUpdate(ts, t, p, Owed);
    SumUpdate(ts, t, p, Looking);
    SumUpdate(ts, t, p, Registered);
  }

  /** FUTEX_WAKE turns exactly |picks| sleepers into threads that look at the count again. */
  lemma {:induction false} WakeAllSums(ts: seq<Pc>, picks: seq<nat>)
    requires PicksSleepers(ts, picks)
    ensures var r := WakeAll(ts, picks);
            && Sum(r, Sleeping) == Sum(ts, Sleeping) - |picks|
            && Sum(r, Owed) == Sum(ts, Owed)
            && Sum(r, Looking) == Sum(ts, Looking) + |picks|
            && Sum(r, Registered) == Sum(ts, Registered)
            && (forall i :: 0 <= i < |ts| && !ts[i].Asleep? ==> r[i] == ts[i])
            && ((forall i :: 0 <= i < |ts| ==> PcOk(ts[i])) ==> forall i :: 0 <= i < |ts| ==> PcOk(r[i]))
    decreases |picks|
  {
    if picks == [] {
    } else {
      var p := picks[0];
      var ts' := ts[p := Leave(ts[p].timeout, false)];
      PutSums(ts, p, Leave(ts[p].timeout, false));
      WakeAllSums(ts', picks[1..]);
    }
  }

  lemma {:induction false} SleepersAreRegistered(ts: seq<Pc>)
    ensures Sum(ts, Sleeping) <= Sum(ts, Registered)
  {
    if ts == [] {
    } else {
      SleepersAreRegistered(ts[1..]);
    }
  }

  lemma {:induction false} WakeInv(s: Sem, e: Event)
    requires Inv(s) && Enabled(s, e) && e.FutexWake?
    ensures Inv(Apply(s, e))
  {
    WakeAllSums(s.threads, e.picks);
    PutSums(WakeAll(s.threads, e.picks), e.t, Idle);
  }

  /** What a single-thread step does to the four sums. */
  lemma {:induction false} OneThread(s: Sem, e: Event)
    requires Inv(s) && Enabled(s, e) && !e.FutexWake?
    ensures var s', p := Apply(s, e), s.threads[e.t];
            var p' := s'.threads[e.t];
            && s'.threads == s.threads[e.t := p']
            && Sleepers(s') == Sleepers(s) - Sleeping(p) + Sleeping(p')
            && Sum(s'.threads, Owed) == Sum(s.threads, Owed) - Owed(p) + Owed(p')
            && Sum(s'.threads, Looking) == Sum(s.threads, Looking) - Looking(p) + Looking(p')
            && Sum(s'.threads, Registered) == Sum(s.threads, Registered) - Registered(p) + Registered(p')
            && PcOk(p) && Sleepers(s) <= s.waiters
  {
    var p' := Apply(s, e).threads[e.t];
    assert Apply(s, e).threads == s.threads[e.t := p'];
    PutSums(s.threads, e.t, p');
    SleepersAreRegistered(s.threads);
  }

  lemma {:induction false} ReleaseInv(s: Sem, e: Event)
    requires Inv(s) && Enabled(s, e)
    requires e.CallAcquire? || e.CallTryAcquire? || e.CallRelease? || e.FetchAddCount? || e.LoadWaiters?
    ensures Inv(Apply(s, e))
  {
    OneThread(s, e);
    SumAtLeast(Apply(s, e).threads, e.t, Owed);
  }

  lemma {:induction false} AttemptInv(s: Sem, e: Event)
    requires Inv(s) && Enabled(s, e) && (e.LoadCount? || e.CasCount? || e.EnterWaiters?)
    ensures Inv(Apply(s, e))
  {
    OneThread(s, e);
  }

  lemma {:induction false} SleepInv(s: Sem, e: Event)
    requires Inv(s) && Enabled(s, e)
    requires e.ReloadCount? || e.FutexWait? || e.LeaveWaiters? || e.TimeOut? || e.Interrupt?
    ensures Inv(Apply(s, e))
  {
    OneThread(s, e);
  }

  /** Every step of every thread keeps the invariant. */
  lemma {:induction false} StepInv(s: Sem, e: Event)
    requires Inv(s) && Enabled(s, e)
    ensures Inv(Apply(s, e))
  {
    match e
    case FutexWake(_, _) => WakeInv(s, e);
    case LoadCount(_) => AttemptInv(s, e);
    case CasCount(_, _) => AttemptInv(s, e);
    case EnterWaiters(_) => AttemptInv(s, e);
    case ReloadCount(_) => SleepInv(s, e);
    case FutexWait(_) => SleepInv(s, e);
    case LeaveWaiters(_) => SleepInv(s, e);
    case TimeOut(_) => SleepInv(s, e);
    case Interrupt(_) => SleepInv(s, e);
    case _ => ReleaseInv(s, e);
  }

  // Runs

  ghost predicate IsRun(s: Sem, es: seq<Event>)
    decreases |es|
  {
    es == [] || (Enabled(s, es[0]) && IsRun(Apply(s, es[0]), es[1..]))
  }

  ghost function Exec(s: Sem, es: seq<Event>): (s': Sem)
    requires IsRun(s, es)
    ensures |s'.threads| == |s.threads| && s'.initial == s.initial
    decreases |es|
  {
    if es == [] then s else Exec(Apply(s, es[0]), es[1..])
  }

  lemma {:induction false} RunInv(s: Sem, es: seq<Event>)
    requires Inv(s) && IsRun(s, es)
    ensures Inv(Exec(s, es))
    decreases |es|
  {
    if es == [] {
    } else {
      StepInv(s, es[0]);
      RunInv(Apply(s, es[0]), es[1..]);
    }
  }

  /** A thread that is neither outside the semaphore nor asleep in the kernel. */
  predicate MidOperation(p: Pc) { !p.Idle? && !p.Asleep? }

  /**
   No wakeup is lost, in any run with any number of threads: while permits are available and
   somebody sleeps, some other thread still owes a wake or is about to look at the count; so once
   nobody is mid-operation, a positive count means that nobody sleeps.  Permits are conserved.
   */
  lemma {:induction false} NoLostWakeup(count: nat, n: nat, es: seq<Event>)
    requires IsRun(Start(count, n), es)
    ensures var s := Exec(Start(count, n), es);
            && s.count == count + s.released - s.acquired
            && s.count >= 0
            && (s.count > 0 && Sleepers(s) > 0 ==>
                  exists t :: 0 <= t < n && (Owed(s.threads[t]) > 0 || Looking(s.threads[t]) > 0))
            && (s.count > 0 && (forall t :: 0 <= t < n ==> !MidOperation(s.threads[t])) ==>
                  forall t :: 0 <= t < n ==> s.threads[t].Idle?)
  {
    StartInv(count, n);
    RunInv(Start(count, n), es);
    var s := Exec(Start(count, n), es);
    if s.count > 0 && Sleepers(s) > 0 {
      if Sum(s.threads, Owed) > 0 {
        var t := SumPositive(s.threads, Owed);
      } else {
        var t := SumPositive(s.threads, Looking);
      }
    }
    if s.count > 0 && forall t :: 0 <= t < n ==> !MidOperation(s.threads[t]) {
      forall t | 0 <= t < n ensures s.threads[t].Idle? {
        SumAtLeast(s.threads, t, Sleeping);
      }
    }
  }

  /** The underflow exception of release can never be raised. */
  lemma {:induction false} ReleaseNeverUnderflows(count: nat, n: nat, es: seq<Event>, t: nat)
    requires IsRun(Start(count, n), es)
    requires t < n && Exec(Start(count, n), es).threads[t].Add?
    ensures Apply(Exec(Start(count, n), es), FetchAddCount(t)).threads[t].Inspect?
  {
    StartInv(count, n);
    RunInv(Start(count, n), es);
  }

  // What the calls return

  predicate InTry(p: Pc) { p.TryLoad? || p.TryAttempt? }

  predicate InAcquire(p: Pc) {
    p.Load? || p.Attempt? || p.Recheck? || p.Retract? || p.Wait? || p.Asleep? || p.Leave?
  }

  /** A step ends an acquiring call of its thread: with a permit, or without one. */
  ghost predicate Ends(s: Sem, e: Event)
    requires Enabled(s, e)
  {
    (InTry(s.threads[e.t]) || InAcquire(s.threads[e.t])) && Apply(s, e).threads[e.t].Idle?
  }

  ghost predicate Fails(s: Sem, e: Event)
    requires Enabled(s, e)
  {
    Ends(s, e) && Apply(s, e).acquired == s.acquired
  }

  /** A call that may not wait looks at the count once more than it tries, and never waits. */
  predicate CallOk(p: Pc) {
    match p
    case Attempt(timeout, current) => timeout == Poll ==> current > 0
    case Recheck(timeout) => timeout != Poll
    case Retract(timeout) => timeout != Poll
    case Wait(timeout, _) => timeout != Poll
    case Asleep(timeout) => timeout != Poll
    case Leave(timeout, timedOut) => timeout != Poll && (timedOut ==> timeout == Limited)
    case TryAttempt(current) => current > 0
    case _ => true
  }

  ghost predicate CallsOk(s: Sem) { forall i :: 0 <= i < |s.threads| ==> CallOk(s.threads[i]) }

  lemma {:induction false} WakeAllCallsOk(ts: seq<Pc>, picks: seq<nat>)
    requires PicksSleepers(ts, picks) && forall i :: 0 <= i < |ts| ==> CallOk(ts[i])
    ensures forall i :: 0 <= i < |ts| ==> CallOk(WakeAll(ts, picks)[i])
    decreases |picks|
  {
    if picks == [] {
    } else {
      WakeAllCallsOk(ts[picks[0] := Leave(ts[picks[0]].timeout, false)], picks[1..]);
    }
  }

  lemma {:induction false} StepCallsOk(s: Sem, e: Event)
    requires Enabled(s, e) && CallsOk(s)
    ensures CallsOk(Apply(s, e))
  {
    hide Sleepers;
    var s' := Apply(s, e);
    if e.FutexWake? { WakeAllCallsOk(s.threads, e.picks); }
    forall i | 0 <= i < |s'.threads| ensures CallOk(s'.threads[i]) {
      assert CallOk(s.threads[i]);
    }
  }

  lemma {:induction false} RunCallsOk(s: Sem, es: seq<Event>)
    requires CallsOk(s) && IsRun(s, es)
    ensures CallsOk(Exec(s, es))
    decreases |es|
  {
    hide Enabled, Apply, CallsOk;
    if es == [] {
    } else {
      StepCallsOk(s, es[0]);
      RunCallsOk(Apply(s, es[0]), es[1..]);
    }
  }

  /**
   Why an acquiring call fails, in every run: try_acquire, and a zero timeout, only when there is no
   permit at that moment; a positive timeout only after it has expired; without a timeout never.
   A call that succeeds takes exactly one permit.
   */
  lemma {:induction false} FailsOnlyWithReason(count: nat, n: nat, es: seq<Event>, e: Event)
    requires IsRun(Start(count, n), es) && Enabled(Exec(Start(count, n), es), e) && Ends(Exec(Start(count, n), es), e)
    ensures var s := Exec(Start(count, n), es);
            var p, s' := s.threads[e.t], Apply(s, e);
            if Fails(s, e)
            then s'.count == s.count && (if InTry(p) || p.timeout == Poll then s.count <= 0 else p == Leave(Limited, true))
            else s'.acquired == s.acquired + 1 && s'.count == s.count - 1
  {
    hide IsRun, Exec, Sleepers;
    RunCallsOk(Start(count, n), es);
    var s := Exec(Start(count, n), es);
    assert CallOk(s.threads[e.t]);
  }

  /** A call that has timed out does fail, and only the expiry of its timeout makes it so. */
  lemma {:induction false} TimedOutCallFails(s: Sem, e: Event, i: nat)
    requires Enabled(s, e) && i < |s.threads|
    ensures e.t == i && s.threads[i].Leave? && s.threads[i].timedOut ==> Fails(s, e)
    ensures var p' := Apply(s, e).threads[i];
            p'.Leave? && p'.timedOut && p' != s.threads[i] ==> e == TimeOut(i)
  {
    hide Sleepers;
    if e.FutexWake? { WokenOnly(s.threads, e.picks, i); }
  }

  lemma {:induction false} WokenOnly(ts: seq<Pc>, picks: seq<nat>, i: nat)
    requires PicksSleepers(ts, picks) && i < |ts|
    ensures WakeAll(ts, picks)[i] == ts[i]
         || (ts[i].Asleep? && WakeAll(ts, picks)[i] == Leave(ts[i].timeout, false))
    decreases |picks|
  {
    if picks == [] {
    } else {
      var p := picks[0];
      WokenOnly(ts[p := Leave(ts[p].timeout, false)], picks[1..], i);
    }
  }

  /** A call keeps its timeout argument through every step of every thread, until it ends. */
  lemma {:induction false} TimeoutIsKept(s: Sem, e: Event, i: nat)
    requires Enabled(s, e) && i < |s.threads| && InAcquire(s.threads[i])
    ensures var p' := Apply(s, e).threads[i];
            p'.Idle? || (InAcquire(p') && p'.timeout == s.threads[i].timeout)
  {
    hide Sleepers;
    if e.FutexWake? { WokenOnly(s.threads, e.picks, i); }
  }

  /** A call starts inside with the timeout it was given. */
  lemma {:induction false} CallStarts(s: Sem, t: nat, timeout: Timeout)
    requires t < |s.threads| && s.threads[t].Idle?
    ensures var p := Apply(s, CallAcquire(t, timeout)).threads[t]; InAcquire(p) && p.timeout == timeout
    ensures InTry(Apply(s, CallTryAcquire(t)).threads[t])
  {}

  // Progress of a thread that runs alone

  /** The next instruction of a thread that is awake inside a call, when its exchange does not fail spuriously. */
  function Next(p: Pc, t: nat): Event
    requires !p.Idle? && !p.Asleep? && !p.Wake?
  {
    match p
    case Load(_) => LoadCount(t)
    case TryLoad => LoadCount(t)
    case Attempt(_, current) => if current > 0 then CasCount(t, false) else EnterWaiters(t)
    case TryAttempt(_) => CasCount(t, false)
    case Recheck(_) => ReloadCount(t)
    case Retract(_) => LeaveWaiters(t)
    case Wait(_, _) => FutexWait(t)
    case Leave(_, _) => LeaveWaiters(t)
    case Add(_) => FetchAddCount(t)
    case Inspect(_) => LoadWaiters(t)
  }

  /** How many instructions an acquirer is away from its permit while the count stays at `count`. */
  function Distance(p: Pc, count: int): nat {
    match p
    case Attempt(_, current) => if current == count then 1 else if current > 0 then 2 else 5
    case TryAttempt(current) => if current == count then 1 else 2
    case Load(_) => 2
    case TryLoad => 2
    case Retract(_) => 3
    case Leave(_, _) => 3
    case Recheck(_) => 4
    case Wait(_, _) => 4
    case _ => 0
  }

  /**
   While a permit is there, every instruction of an acquirer that runs alone brings it closer to the permit,
   and the last one takes it; only a call that has timed out already gives up.
   */
  lemma {:induction false} PermitComesCloser(s: Sem, t: nat)
    requires Inv(s) && CallsOk(s) && s.count > 0 && t < |s.threads|
    requires InTry(s.threads[t]) || (InAcquire(s.threads[t]) && !s.threads[t].Asleep?)
    requires !(s.threads[t].Leave? && s.threads[t].timedOut)
    ensures var p := s.threads[t];
            && Enabled(s, Next(p, t))
            && var s' := Apply(s, Next(p, t));
               if Distance(p, s.count) == 1
               then s'.threads[t].Idle? && s'.acquired == s.acquired + 1
               else s'.count == s.count && s'.acquired == s.acquired
                    && 0 < Distance(s'.threads[t], s.count) < Distance(p, s.count)
  {
    hide Sleepers;
    assert PcOk(s.threads[t]) && CallOk(s.threads[t]);
  }

  /** A release that runs alone adds its permits, and goes to wake the smaller of its permits and the waiters. */
  lemma {:induction false} ReleaseRunsThrough(s: Sem, t: nat)
    requires Inv(s) && t < |s.threads| && s.threads[t].Add?
    ensures var n := s.threads[t].n;
            && Enabled(s, FetchAddCount(t))
            && var s1 := Apply(s, FetchAddCount(t));
               && Enabled(s1, LoadWaiters(t)) && s1.count == s.count + n
               && Apply(s1, LoadWaiters(t)).threads[t]
                  == if s.waiters == 0 then Idle else Wake(if n <= s.waiters then n else s.waiters)
  {
    hide Sleepers;
    assert PcOk(s.threads[t]);
    SleepersAreRegistered(s.threads);
  }

  /** FUTEX_WAKE ends the release and wakes as many sleepers as it was asked to, or all there are. */
  lemma {:induction false} WakeWakes(s: Sem, t: nat, picks: seq<nat>)
    requires Enabled(s, FutexWake(t, picks))
    ensures var s', k := Apply(s, FutexWake(t, picks)), s.threads[t].k;
            && s'.threads[t].Idle?
            && Sleepers(s') == (if k <= Sleepers(s) then Sleepers(s) - k else 0)
            && (forall i :: 0 <= i < |picks| ==> s'.threads[picks[i]] == Leave(s.threads[picks[i]].timeout, false))
  {
    WakeAllSums(s.threads, picks);
    PutSums(WakeAll(s.threads, picks), t, Idle);
    forall i | 0 <= i < |picks|
      ensures WakeAll(s.threads, picks)[picks[i]] == Leave(s.threads[picks[i]].timeout, false)
    {
      PickedIsWoken(s.threads, picks, i);
    }
  }

  lemma {:induction false} PickedIsWoken(ts: seq<Pc>, picks: seq<nat>, i: nat)
    requires PicksSleepers(ts, picks) && i < |picks|
    ensures WakeAll(ts, picks)[picks[i]] == Leave(ts[picks[i]].timeout, false)
    decreases |picks|
  {
    var p := picks[0];
    var ts' := ts[p := Leave(ts[p].timeout, false)];
    if i == 0 {
      WokenOnly(ts', picks[1..], p);
    } else {
      PickedIsWoken(ts', picks[1..], i - 1);
    }
  }

  /** A sleeper leaves the kernel: to fail after its timeout, to look again after a signal. */
  lemma {:induction false} SleeperLeaves(s: Sem, t: nat)
    requires t < |s.threads| && s.threads[t].Asleep?
    ensures Apply(s, Interrupt(t)).threads[t] == Leave(s.threads[t].timeout, false)
    ensures s.threads[t].timeout == Limited ==>
              && Apply(s, TimeOut(t)).threads[t] == Leave(Limited, true)
              && Fails(Apply(s, TimeOut(t)), LeaveWaiters(t))
  {}

  /** A waiting call sleeps as soon as it finds no permit, twice, and the count has not changed. */
  lemma {:induction false} WithoutPermitItSleeps(s: Sem, t: nat, timeout: Timeout)
    requires t < |s.threads| && s.threads[t] == Recheck(timeout) && s.count == 0
    ensures var s' := Apply(s, ReloadCount(t));
            Enabled(s', FutexWait(t)) && Apply(s', FutexWait(t)).threads[t] == Asleep(timeout)
  {}

  /** release(n) adds exactly n permits, and refuses a number that is not positive. */
  lemma {:induction false} ReleaseAddsItsPermits(s: Sem, t: nat, n: int)
    requires t < |s.threads| && s.threads[t].Idle?
    ensures var s' := Apply(s, CallRelease(t, n));
            if n <= 0 then s' == s
            else Enabled(s', FetchAddCount(t)) && Apply(s', FetchAddCount(t)).count == s.count + n
                 && Apply(s', FetchAddCount(t)).released == s.released + n
  {}

  /** The object itself: two atomic words, one method per atomic instruction. */
  class FutexSemaphore {
    var count: int
    var waiters: int
    ghost var threads: seq<Pc>
    ghost var initial: int
    ghost var released: int
    ghost var acquired: int

    ghost function View(): Sem
      reads this
    {
      Sem(count, waiters, threads, initial, released, acquired)
    }

    constructor (initialCount: nat, ghost n: nat)
      ensures View() == Start(initialCount, n) && Inv(View())
    {
      count, waiters := initialCount, 0;
      threads := seq(n, i => Idle);
      initial, released, acquired := initialCount, 0, 0;
      new;
      StartInv(initialCount, n);
    }

    /** The source's constructor, which throws on a negative count. */
    static method Create(initialCount: int, ghost n: nat) returns (r: Option<FutexSemaphore>)
      ensures r.None? <==> initialCount < 0
      ensures r.Some? ==> fresh(r.value) && r.value.View() == Start(initialCount, n) && Inv(r.value.View())
    {
      if initialCount < 0 { return None; }
      var s := new FutexSemaphore(initialCount, n);
      return Some(s);
    }

    ghost method Enter(e: Event)
      requires Inv(View()) && (e.CallAcquire? || e.CallTryAcquire? || e.CallRelease?) && Enabled(View(), e)
      modifies this
      ensures View() == Apply(old(View()), e) && Inv(View())
    {
      StepInv(View(), e);
      threads := Apply(View(), e).threads;
    }

    method LoadCount(ghost t: nat) returns (current: int)
      requires Inv(View()) && Enabled(View(), Event.LoadCount(t))
      modifies this
      ensures View() == Apply(old(View()), Event.LoadCount(t)) && Inv(View())
      ensures current == old(count)
    {
      StepInv(View(), Event.LoadCount(t));
      current := count;
      threads := threads[t := After(threads[t], current)];
    }

    method CasCount(ghost t: nat, current: int, spurious: bool) returns (ok: bool, seen: int)
      requires Inv(View()) && Enabled(View(), Event.CasCount(t, spurious)) && current == threads[t].current
      modifies this
      ensures View() == Apply(old(View()), Event.CasCount(t, spurious)) && Inv(View())
      ensures ok == (old(count) == current && !spurious) && seen == old(count)
      ensures ok ==> count == old(count) - 1
    {
      StepInv(View(), Event.CasCount(t, spurious));
      seen := count;
      ok := count == current && !spurious;
      if ok {
        count := current - 1;
        acquired := acquired + 1;
        threads := threads[t := Idle];
      } else {
        threads := threads[t := After(threads[t], seen)];
      }
    }

    method EnterWaiters(ghost t: nat)
      requires Inv(View()) && Enabled(View(), Event.EnterWaiters(t))
      modifies this
      ensures View() == Apply(old(View()), Event.EnterWaiters(t)) && Inv(View())
      ensures waiters == old(waiters) + 1 && count == old(count)
    {
      StepInv(View(), Event.EnterWaiters(t));
      waiters := waiters + 1;
      threads := threads[t := Recheck(threads[t].timeout)];
    }

    method ReloadCount(ghost t: nat) returns (current: int)
      requires Inv(View()) && Enabled(View(), Event.ReloadCount(t))
      modifies this
      ensures View() == Apply(old(View()), Event.ReloadCount(t)) && Inv(View())
      ensures current == old(count)
      ensures threads[t].Retract? <==> old(count) > 0
    {
      StepInv(View(), Event.ReloadCount(t));
      current := count;
      threads := threads[t := if current > 0 then Retract(threads[t].timeout) else Wait(threads[t].timeout, current)];
    }

    method FutexWait(ghost t: nat, current: int) returns (sleeps: bool)
      requires Inv(View()) && Enabled(View(), Event.FutexWait(t)) && current == threads[t].current
      modifies this
      ensures View() == Apply(old(View()), Event.FutexWait(t)) && Inv(View())
      ensures sleeps == (old(count) == current)
      ensures threads[t].Asleep? <==> sleeps
    {
      StepInv(View(), Event.FutexWait(t));
      sleeps := count == current;
      threads := threads[t := if sleeps then Asleep(threads[t].timeout) else Leave(threads[t].timeout, false)];
    }

    method LeaveWaiters(ghost t: nat)
      requires Inv(View()) && Enabled(View(), Event.LeaveWaiters(t))
      modifies this
      ensures View() == Apply(old(View()), Event.LeaveWaiters(t)) && Inv(View())
      ensures waiters == old(waiters) - 1
      ensures threads[t].Idle? <==> old(threads)[t].Leave? && old(threads)[t].timedOut
    {
      StepInv(View(), Event.LeaveWaiters(t));
      waiters := waiters - 1;
      threads := Apply(old(View()), Event.LeaveWaiters(t)).threads;
    }

    method FetchAddCount(ghost t: nat, n: int) returns (prev: int)
      requires Inv(View()) && Enabled(View(), Event.FetchAddCount(t)) && n == threads[t].n
      modifies this
      ensures View() == Apply(old(View()), Event.FetchAddCount(t)) && Inv(View())
      ensures prev == old(count) >= 0
      ensures count == old(count) + n
    {
      StepInv(View(), Event.FetchAddCount(t));
      prev := count;
      count := count + n;
      released := released + n;
      threads := threads[t := Inspect(n)];
    }

    method LoadWaiters(ghost t: nat, n: int) returns (toWake: int)
      requires Inv(View()) && Enabled(View(), Event.LoadWaiters(t)) && n == threads[t].n
      modifies this
      ensures View() == Apply(old(View()), Event.LoadWaiters(t)) && Inv(View())
      ensures toWake == old(waiters)
      ensures waiters == old(waiters) && (threads[t].Wake? <==> toWake > 0)
    {
      StepInv(View(), Event.LoadWaiters(t));
      toWake := waiters;
      threads := threads[t := if toWake > 0 then Wake(Min(n, toWake)) else Idle];
    }

    /** FUTEX_WAKE; the kernel chooses which sleepers to wake. */
    ghost method FutexWake(t: nat, picks: seq<nat>)
      requires Inv(View()) && Enabled(View(), Event.FutexWake(t, picks))
      modifies this
      ensures View() == Apply(old(View()), Event.FutexWake(t, picks)) && Inv(View())
    {
      StepInv(View(), Event.FutexWake(t, picks));
      threads := WakeAll(threads, picks)[t := Idle];
    }

    /** A sleeper leaves the kernel by itself: its timeout expires, or a signal interrupts it. */
    ghost method Kernel(e: Event)
      requires Inv(View()) && (e.TimeOut? || e.Interrupt?) && Enabled(View(), e)
      modifies this
      ensures View() == Apply(old(View()), e) && Inv(View())
    {
      StepInv(View(), e);
      threads := Apply(View(), e).threads;
    }
  }
}
