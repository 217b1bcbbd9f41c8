/**
 Barrier (include/pman/barrier.hpp) with exactly `threshold` participants that call wait() over
 and over.  Every atomic operation is one step and steps interleave in any order.
 */
module SpinBarrier {
  import opened Tally
  import opened Wrappers

  /** `rounds` counts the waits a participant has returned from. */
  datatype Pc =
    | Outside(rounds: int)
    | Arriving(rounds: int, gen: int)
    | Spinning(rounds: int, gen: int)
    | Resetting(rounds: int)
    | Advancing(rounds: int)

  datatype Bar = Bar(count: int, generation: int, threads: seq<Pc>)

  datatype Event = LoadGeneration(t: nat) | SubCount(t: nat) | StoreCount(t: nat) | AddGeneration(t: nat) | Spin(t: nat)

  function Start(threshold: nat): Bar { Bar(threshold, 0, seq(threshold, i => Outside(0))) }

  predicate Enabled(b: Bar, e: Event) {
    && e.t < |b.threads|
    && var p := b.threads[e.t];
       match e
       case LoadGeneration(_) => p.Outside?
       case SubCount(_) => p.Arriving?
       case StoreCount(_) => p.Resetting?
       case AddGeneration(_) => p.Advancing?
       case Spin(_) => p.Spinning?
  }

  function Put(b: Bar, t: nat, p: Pc): Bar
    requires t < |b.threads|
  {
    b.(threads := b.threads[t := p])
  }

  function Apply(b: Bar, e: Event): (b': Bar)
    requires Enabled(b, e)
    ensures |b'.threads| == |b.threads|
  {
    var p := b.threads[e.t];
    match e
    case LoadGeneration(t) => Put(b, t, Arriving(p.rounds, b.generation))
    case SubCount(t) =>
      Put(b, t, if b.count == 1 then Resetting(p.rounds) else Spinning(p.rounds, p.gen)).(count := b.count - 1)
    case StoreCount(t) => Put(b, t, Advancing(p.rounds)).(count := |b.threads|)
    case AddGeneration(t) => Put(b, t, Outside(p.rounds + 1)).(generation := b.generation + 1)
    case Spin(t) => if b.generation == p.gen then b else Put(b, t, Outside(p.rounds + 1))
  }

  /** Spinning in round `g`, still waiting for the others. */
  predicate WaitsIn(p: Pc, g: int) { p.Spinning? && p.gen == g }
  function WaitingAt(g: int): Pc -> nat { (p: Pc) => if WaitsIn(p, g) then 1 else 0 }
  function Last(p: Pc): nat { if p.Resetting? || p.Advancing? then 1 else 0 }

  /** How often a participant has arrived, that is, decremented the count. */
  function Arrivals(p: Pc): int { if p.Spinning? || p.Resetting? || p.Advancing? then p.rounds + 1 else p.rounds }

  predicate PcOk(p: Pc, g: int) {
    match p
    case Outside(r) => r == g
    case Arriving(r, gen) => r == g && gen == g
    case Spinning(r, gen) => r == gen && (gen == g || gen == g - 1)
    case Resetting(r) => r == g
    case Advancing(r) => r == g
  }

  ghost predicate Inv(b: Bar) {
    var n, waiting := |b.threads|, Sum(b.threads, WaitingAt(b.generation));
    && (forall t :: 0 <= t < n ==> PcOk(b.threads[t], b.generation))
    && (forall t :: 0 <= t < n && b.threads[t].Resetting? ==> b.count == 0)
    && (forall t :: 0 <= t < n && b.threads[t].Advancing? ==> b.count == n)
    && (if Sum(b.threads, Last) == 0 then b.count == n - waiting > 0
        else Sum(b.threads, Last) == 1 && waiting == n - 1)
  }

  lemma {:induction false} StartInv(threshold: nat)
    requires threshold > 0
    ensures Inv(Start(threshold))
  {
    SumZero(Start(threshold).threads, WaitingAt(0));
    SumZero(Start(threshold).threads, Last);
  }

  lemma {:induction false} WaitingAndOthers(ts: seq<Pc>, g: int, t: nat)
    requires t < |ts| && !WaitsIn(ts[t], g)
    ensures Sum(ts, WaitingAt(g)) <= |ts| - 1
  {
    SumUpdate(ts, t, Spinning(g, g), WaitingAt(g));
    SumAtMost(ts[t := Spinning(g, g)], WaitingAt(g), 1);
  }

  /** When all but t wait, everybody but t waits. */
  lemma {:induction false} AllOthersWait(ts: seq<Pc>, g: int, t: nat, u: nat)
    requires t < |ts| && u < |ts| && t != u && !WaitsIn(ts[t], g)
    requires Sum(ts, WaitingAt(g)) == |ts| - 1
    ensures WaitsIn(ts[u], g)
  {
    if !WaitsIn(ts[u], g) {
      SumUpdate(ts, t, Spinning(g, g), WaitingAt(g));
      WaitingAndOthers(ts[t := Spinning(g, g)], g, u);
    }
  }

  lemma {:induction false} MoveSums(b: Bar, e: Event)
    requires Enabled(b, e)
    ensures var b', p := Apply(b, e), b.threads[e.t];
            var p' := b'.threads[e.t];
            && b'.threads == b.threads[e.t := p']
            && Sum(b'.threads, Last) == Sum(b.threads, Last) - Last(p) + Last(p')
            && Sum(b'.threads, WaitingAt(b.generation)) ==
               Sum(b.threads, WaitingAt(b.generation)) - WaitingAt(b.generation)(p) + WaitingAt(b.generation)(p')
  {
    var p' := Apply(b, e).threads[e.t];
    assert Apply(b, e).threads == b.threads[e.t := p'];
    SumUpdate(b.threads, e.t, p', Last);
    SumUpdate(b.threads, e.t, p', WaitingAt(b.generation));
  }

  lemma {:induction false} AdvanceInv(b: Bar, e: Event)
    requires Inv(b) && Enabled(b, e) && e.AddGeneration?
    ensures Inv(Apply(b, e))
  {
    MoveSums(b, e);
    SumAtLeast(b.threads, e.t, Last);
    var b' := Apply(b, e);
    forall u | 0 <= u < |b.threads| && u != e.t ensures WaitsIn(b.threads[u], b.generation) {
      AllOthersWait(b.threads, b.generation, e.t, u);
    }
    SumZero(b'.threads, WaitingAt(b'.generation));
  }

  /** While the last arriver is at work, every other participant spins. */
  lemma {:induction false} LastIsAlone(b: Bar, t: nat)
    requires Inv(b) && t < |b.threads| && Last(b.threads[t]) == 0 && !WaitsIn(b.threads[t], b.generation)
    ensures Sum(b.threads, Last) == 0
  {
    if Sum(b.threads, Last) > 0 {
      var u := SumPositive(b.threads, Last);
      AllOthersWait(b.threads, b.generation, u, t);
    }
  }

  lemma {:induction false} ArriveInv(b: Bar, e: Event)
    requires Inv(b) && Enabled(b, e) && (e.LoadGeneration? || e.SubCount?)
    ensures Inv(Apply(b, e))
  {
    MoveSums(b, e);
    LastIsAlone(b, e.t);
    forall u | 0 <= u < |b.threads| ensures Last(b.threads[u]) == 0 { SumAtLeast(b.threads, u, Last); }
  }

  lemma {:induction false} ResetInv(b: Bar, e: Event)
    requires Inv(b) && Enabled(b, e) && (e.StoreCount? || e.Spin?)
    ensures Inv(Apply(b, e))
  {
    MoveSums(b, e);
    var t := e.t;
    SumAtLeast(b.threads, t, Last);
    if e.Spin? && b.generation != b.threads[t].gen { LastIsAlone(b, t); }
    forall u | 0 <= u < |b.threads| && u != t ensures e.StoreCount? ==> Last(b.threads[u]) == 0 {
      SumAtLeastTwo(b.threads, if t < u then t else u, if t < u then u else t, Last);
    }
  }

  lemma {:induction false} StepInv(b: Bar, e: Event)
    requires Inv(b) && Enabled(b, e)
    ensures Inv(Apply(b, e))
  {
    match e
    case AddGeneration(_) => AdvanceInv(b, e);
    case LoadGeneration(_) => ArriveInv(b, e);
    case SubCount(_) => ArriveInv(b, e);
    case _ => ResetInv(b, e);
  }

  predicate IsRun(b: Bar, es: seq<Event>)
    decreases |es|
  {
    es == [] || (Enabled(b, es[0]) && IsRun(Apply(b, es[0]), es[1..]))
  }

  function Exec(b: Bar, es: seq<Event>): (b': Bar)
    requires IsRun(b, es)
    ensures |b'.threads| == |b.threads|
    decreases |es|
  {
    if es == [] then b else Exec(Apply(b, es[0]), es[1..])
  }

  lemma {:induction false} RunInv(b: Bar, es: seq<Event>)
    requires Inv(b) && IsRun(b, es)
    ensures Inv(Exec(b, es))
    decreases |es|
  {
    if es == [] {
    } else {
      StepInv(b, es[0]);
      RunInv(Apply(b, es[0]), es[1..]);
    }
  }

  /**
   In every run nobody has returned from more rounds than each participant has arrived at, any two
   participants are at most one round apart, and generation_ is the number of finished rounds.
   */
  lemma {:induction false} NobodyLeavesEarly(threshold: nat, es: seq<Event>, t: nat, u: nat)
    requires threshold > 0 && IsRun(Start(threshold), es) && t < threshold && u < threshold
    ensures var b := Exec(Start(threshold), es);
            && b.threads[t].rounds <= Arrivals(b.threads[u])
            && b.threads[t].rounds - b.threads[u].rounds <= 1
            && b.generation - 1 <= b.threads[t].rounds <= b.generation <= Arrivals(b.threads[t])
  {
    StartInv(threshold);
    RunInv(Start(threshold), es);
  }

  /** Some participant is not held up by the spin loop. */
  ghost predicate SomebodyMoves(b: Bar) { exists t :: 0 <= t < |b.threads| && !WaitsIn(b.threads[t], b.generation) }

  /** The participants never all spin in the current round: somebody can always move on. */
  lemma {:induction false} NeverAllSpin(threshold: nat, es: seq<Event>)
    requires threshold > 0 && IsRun(Start(threshold), es)
    ensures SomebodyMoves(Exec(Start(threshold), es))
  {
    StartInv(threshold);
    RunInv(Start(threshold), es);
    var b := Exec(Start(threshold), es);
    if !SomebodyMoves(b) { AllWaitSum(b.threads, b.generation); }
  }

  lemma {:induction false} AllWaitSum(ts: seq<Pc>, g: int)
    requires forall t :: 0 <= t < |ts| ==> WaitsIn(ts[t], g)
    ensures Sum(ts, WaitingAt(g)) == |ts|
  {
    if ts == [] {
    } else {
      assert forall t :: 0 <= t < |ts| - 1 ==> ts[1..][t] == ts[t + 1];
      AllWaitSum(ts[1..], g);
    }
  }

  /** Entering wait() counts as one arrival at the current round. */
  lemma {:induction false} EnteringArrives(b: Bar, t: nat)
    requires Inv(b) && t < |b.threads| && b.threads[t].Outside?
    ensures var b' := Apply(Apply(b, LoadGeneration(t)), SubCount(t));
            && b'.count == b.count - 1 && b'.generation == b.generation
            && Arrivals(b'.threads[t]) == Arrivals(b.threads[t]) + 1 == b.generation + 1
            && (b.count == 1 <==> Last(b'.threads[t]) == 1)
  {}

  /** A spinner leaves exactly when its round is over, that is, when everybody has arrived at it. */
  lemma {:induction false} SpinnerLeavesExactlyWhenDone(threshold: nat, es: seq<Event>, t: nat)
    requires threshold > 0 && IsRun(Start(threshold), es) && t < threshold
    requires Exec(Start(threshold), es).threads[t].Spinning?
    ensures var b := Exec(Start(threshold), es);
            var r := b.threads[t].rounds;
            && (Apply(b, Spin(t)).threads[t] == Outside(r + 1) <==> b.generation == r + 1)
            && (Apply(b, Spin(t)) == b <==> b.generation == r)
            && (b.generation == r + 1 ==> forall u :: 0 <= u < threshold ==> Arrivals(b.threads[u]) >= r + 1)
  {
    StartInv(threshold);
    RunInv(Start(threshold), es);
    var b := Exec(Start(threshold), es);
    assert PcOk(b.threads[t], b.generation);
    assert b.threads[t := b.threads[t]] == b.threads;
  }

  /** The last arriver opens the next round with a full count, and then everybody may leave. */
  lemma {:induction false} LastArriverOpensTheRound(b: Bar, t: nat)
    requires Inv(b) && t < |b.threads| && b.threads[t].Arriving? && b.count == 1
    ensures var b' := Apply(Apply(Apply(b, SubCount(t)), StoreCount(t)), AddGeneration(t));
            && b'.count == |b.threads| && b'.generation == b.generation + 1
            && b'.threads[t] == Outside(b.threads[t].rounds + 1)
            && forall u :: 0 <= u < |b.threads| && u != t ==>
                 Enabled(b', Spin(u)) && Apply(b', Spin(u)).threads[u] == Outside(b.generation + 1)
  {
    var b1 := Apply(b, SubCount(t));
    StepInv(b, SubCount(t));
    var b2 := Apply(b1, StoreCount(t));
    StepInv(b1, StoreCount(t));
    SumAtLeast(b1.threads, t, Last);
    forall u | 0 <= u < |b.threads| && u != t ensures WaitsIn(b1.threads[u], b.generation) {
      AllOthersWait(b1.threads, b.generation, t, u);
    }
  }

  /** The object itself: two atomic words and the fixed threshold. */
  class Barrier {
    const threshold: nat
    var count: int
    var generation: int
    ghost var threads: seq<Pc>

    ghost function View(): Bar
      reads this
    {
      Bar(count, generation, threads)
    }

    ghost predicate Valid()
      reads this
    {
      Inv(View()) && |threads| == threshold
    }

    constructor (threshold: nat)
      requires threshold > 0
      ensures View() == Start(threshold) && Valid()
    {
      this.threshold, count, generation := threshold, threshold, 0;
      threads := seq(threshold, i => Outside(0));
      new;
      StartInv(threshold);
    }

    /** The source's constructor, which throws on zero. */
    static method Create(threshold: nat) returns (r: Option<Barrier>)
      ensures r.None? <==> threshold == 0
      ensures r.Some? ==> fresh(r.value) && r.value.View() == Start(threshold) && r.value.Valid()
    {
      if threshold == 0 { return None; }
      var b := new Barrier(threshold);
      return Some(b);
    }

    /** generation_.load: on entry, and on each turn of the spin loop. */
    method LoadGeneration(ghost e: Event) returns (gen: int)
      requires Valid() && Enabled(View(), e) && (e.LoadGeneration? || e.Spin?)
      modifies this
      ensures View() == Apply(old(View()), e) && Valid()
      ensures gen == generation
    {
      StepInv(View(), e);
      gen := generation;
      threads := Apply(View(), e).threads;
    }

    method SubCount(ghost t: nat) returns (prev: int)
      requires Valid() && Enabled(View(), Event.SubCount(t))
      modifies this
      ensures View() == Apply(old(View()), Event.SubCount(t)) && Valid()
      ensures prev == old(count)
      ensures count == old(count) - 1
    {
      StepInv(View(), Event.SubCount(t));
      threads := Apply(View(), Event.SubCount(t)).threads;
      prev := count;
      count := count - 1;
    }

    method StoreCount(ghost t: nat)
      requires Valid() && Enabled(View(), Event.StoreCount(t))
      modifies this
      ensures View() == Apply(old(View()), Event.StoreCount(t)) && Valid()
      ensures count == threshold
    {
      StepInv(View(), Event.StoreCount(t));
      threads := Apply(View(), Event.StoreCount(t)).threads;
      count := threshold;
    }

    method AddGeneration(ghost t: nat)
      requires Valid() && Enabled(View(), Event.AddGeneration(t))
      modifies this
      ensures View() == Apply(old(View()), Event.AddGeneration(t)) && Valid()
      ensures generation == old(generation) + 1
    {
      StepInv(View(), Event.AddGeneration(t));
      threads := Apply(View(), Event.AddGeneration(t)).threads;
      generation := generation + 1;
    }
  }
}
