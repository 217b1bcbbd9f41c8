/**
 What the timer wheel promises its users, with the wheels abstracted away: each timer is live until
 it is cancelled or, once expired, taken out, fired and, if periodic, put back
 (src/timer_wheel.cpp).
 */
module TimerPool {

  /** A timer as the wheels store it. */
  datatype Entry = Entry(id: nat, expiry: int, period: int, cancelled: bool)

  /** Where a timer stands.  An expired one is taken out at clock reading `at`, then fires. */
  datatype Status = Live(entry: Entry) | Out(entry: Entry, at: int, fired: bool) | Dead | Done

  datatype Record = Fired(entry: Entry, at: int) | Cancelled(id: nat)

  datatype Pool = Pool(nextId: nat, status: map<nat, Status>, history: seq<Record>)

  datatype Event =
    | Schedule(expiry: int, period: int)
    | Cancel(id: nat)
    | Extract(id: nat, at: int)
    | Fire(id: nat)
    | Retire(id: nat, expiry: int)

  function Start(): Pool { Pool(1, map[], []) }

  predicate IsLive(p: Pool, id: nat) { id in p.status && p.status[id].Live? }
  predicate IsOut(p: Pool, id: nat) { id in p.status && p.status[id].Out? }

  predicate Enabled(p: Pool, e: Event) {
    match e
    case Extract(id, at) => IsLive(p, id) && p.status[id].entry.expiry <= at
    case Fire(id) => IsOut(p, id) && !p.status[id].fired
    case Retire(id, _) => IsOut(p, id) && p.status[id].fired
    case _ => true
  }

  function Set(p: Pool, id: nat, s: Status): Pool { p.(status := p.status[id := s]) }

  function Apply(p: Pool, e: Event): Pool
    requires Enabled(p, e)
  {
    match e
    case Schedule(expiry, period) =>
      Set(p, p.nextId, Live(Entry(p.nextId, expiry, period, false))).(nextId := p.nextId + 1)
    case Cancel(id) =>
      if IsLive(p, id) then Set(p, id, Dead).(history := p.history + [Cancelled(id)]) else p
    case Extract(id, at) => Set(p, id, Out(p.status[id].entry, at, false))
    case Fire(id) =>
      var s := p.status[id];
      Set(p, id, s.(fired := true)).(history := p.history + [Fired(s.entry, s.at)])
    case Retire(id, expiry) =>
      var x := p.status[id].entry;
      Set(p, id, if x.period > 0 then Live(x.(expiry := expiry)) else Done)
  }

  /** A status fits the id it belongs to. */
  predicate StatusOk(id: nat, s: Status) {
    match s
    case Live(x) => x.id == id && !x.cancelled
    case Out(x, at, _) => x.id == id && !x.cancelled && x.expiry <= at
    case _ => true
  }

  /** The status that a record leaves its timer in. */
  predicate Bears(s: Status, r: Record) {
    match r
    case Cancelled(_) => s.Dead?
    case Fired(x, _) =>
      match s
      case Live(y) => x.period == y.period > 0
      case Out(y, _, fired) => x.period == y.period && (x.period <= 0 ==> fired)
      case Dead => x.period > 0
      case Done => x.period <= 0
  }

  function Subject(r: Record): nat { if r.Fired? then r.entry.id else r.id }

  /** No early firing, none after a cancellation, no second one of a one-shot timer. */
  predicate Compatible(r: Record, later: Record) {
    Subject(r) == Subject(later) && later.Fired? ==> r.Fired? && r.entry.period > 0
  }

  ghost predicate GoodHistory(h: seq<Record>) {
    && (forall i :: 0 <= i < |h| && h[i].Fired? ==> h[i].entry.expiry <= h[i].at)
    && (forall i, j :: 0 <= i < j < |h| ==> Compatible(h[i], h[j]))
  }

  ghost predicate Inv(p: Pool) {
    && p.nextId > 0
    && (forall id :: id in p.status <==> 0 < id < p.nextId)
    && (forall id :: id in p.status ==> StatusOk(id, p.status[id]))
    && (forall i :: 0 <= i < |p.history| ==>
          Subject(p.history[i]) in p.status && Bears(p.status[Subject(p.history[i])], p.history[i]))
    && GoodHistory(p.history)
  }

  lemma {:induction false} StepInv(p: Pool, e: Event)
    requires Inv(p) && Enabled(p, e)
    ensures Inv(Apply(p, e))
  {
    var p' := Apply(p, e);
    forall i | 0 <= i < |p'.history|
      ensures Subject(p'.history[i]) in p'.status && Bears(p'.status[Subject(p'.history[i])], p'.history[i])
    {
      if i < |p.history| { assert p'.history[i] == p.history[i]; }
    }
  }

  predicate IsRun(p: Pool, es: seq<Event>)
    decreases |es|
  {
    es == [] || (Enabled(p, es[0]) && IsRun(Apply(p, es[0]), es[1..]))
  }

  function Exec(p: Pool, es: seq<Event>): Pool
    requires IsRun(p, es)
    decreases |es|
  {
    if es == [] then p else Exec(Apply(p, es[0]), es[1..])
  }

  lemma {:induction false} RunInv(p: Pool, es: seq<Event>)
    requires Inv(p) && IsRun(p, es)
    ensures Inv(Exec(p, es))
    decreases |es|
  {
    hide Inv;
    if es == [] {
    } else {
      StepInv(p, es[0]);
      RunInv(Apply(p, es[0]), es[1..]);
    }
  }

  lemma {:induction false} StartInv()
    ensures Inv(Start())
  {}

  /**
   In every run: each timer ever scheduled has exactly one status, so none is lost or duplicated; a
   timer fires only at or after its expiry; a one-shot fires at most once; and a timer
   whose cancellation succeeded never fires again.
   */
  lemma {:induction false} TimersAreConserved(es: seq<Event>)
    requires IsRun(Start(), es)
    ensures var p := Exec(Start(), es);
            && (forall id :: id in p.status <==> 0 < id < p.nextId)
            && (forall i :: 0 <= i < |p.history| && p.history[i].Fired? ==> p.history[i].entry.expiry <= p.history[i].at)
            && (forall i, j :: 0 <= i < j < |p.history| && p.history[j].Fired? ==>
                  && p.history[i] != Cancelled(p.history[j].entry.id)
                  && (p.history[i].Fired? && p.history[i].entry.id == p.history[j].entry.id ==>
                        p.history[i].entry.period > 0))
  {
    StartInv();
    RunInv(Start(), es);
    var p := Exec(Start(), es);
    assert GoodHistory(p.history);
    forall i, j | 0 <= i < j < |p.history| && p.history[j].Fired?
      ensures p.history[i] != Cancelled(p.history[j].entry.id)
      ensures p.history[i].Fired? && p.history[i].entry.id == p.history[j].entry.id ==> p.history[i].entry.period > 0
    {
      assert Compatible(p.history[i], p.history[j]);
    }
  }

  // The same laws in terms of the events of a run

  /** A timer that can never fire again. */
  predicate Finished(p: Pool, id: nat) {
    && id in p.status && id < p.nextId
    && (p.status[id].Dead? || p.status[id].Done?
        || (p.status[id].Out? && p.status[id].fired && p.status[id].entry.period <= 0))
  }

  lemma {:induction false} FinishedStays(p: Pool, e: Event, id: nat)
    requires Enabled(p, e) && Finished(p, id)
    ensures e != Fire(id) && Finished(Apply(p, e), id)
  {}

  lemma {:induction false} FinishedNeverFires(p: Pool, es: seq<Event>, id: nat, i: nat)
    requires IsRun(p, es) && Finished(p, id) && i < |es|
    ensures es[i] != Fire(id)
    decreases |es|
  {
    FinishedStays(p, es[0], id);
    if i == 0 {
    } else {
      FinishedNeverFires(Apply(p, es[0]), es[1..], id, i - 1);
    }
  }

  /** After a cancellation that succeeds, no event of the rest of the run fires the timer. */
  lemma {:induction false} CancelledNeverFires(before: seq<Event>, id: nat, after: seq<Event>, i: nat)
    requires IsRun(Start(), before) && IsLive(Exec(Start(), before), id)
    requires IsRun(Apply(Exec(Start(), before), Cancel(id)), after) && i < |after|
    ensures after[i] != Fire(id)
  {
    StartInv();
    RunInv(Start(), before);
    FinishedNeverFires(Apply(Exec(Start(), before), Cancel(id)), after, id, i);
  }

  /** After a one-shot timer has fired, no event of the rest of the run fires it again. */
  lemma {:induction false} OneShotFiresOnce(before: seq<Event>, id: nat, after: seq<Event>, i: nat)
    requires IsRun(Start(), before) && Enabled(Exec(Start(), before), Fire(id))
    requires Exec(Start(), before).status[id].entry.period <= 0
    requires IsRun(Apply(Exec(Start(), before), Fire(id)), after) && i < |after|
    ensures after[i] != Fire(id)
  {
    StartInv();
    RunInv(Start(), before);
    FinishedNeverFires(Apply(Exec(Start(), before), Fire(id)), after, id, i);
  }

  /** Whatever fires has expired by the clock reading at which it was taken out. */
  lemma {:induction false} NothingFiresEarly(before: seq<Event>, id: nat)
    requires IsRun(Start(), before) && Enabled(Exec(Start(), before), Fire(id))
    ensures var s := Exec(Start(), before).status[id]; s.entry.id == id && s.entry.expiry <= s.at
  {
    StartInv();
    RunInv(Start(), before);
    assert StatusOk(id, Exec(Start(), before).status[id]);
  }

  /**
   The life of a timer: scheduled, it is live under a fresh id; expired, it can be taken out, then fires, then goes
   back live with its new expiry if it is periodic, and is done otherwise.
   */
  lemma {:induction false} LifeOfATimer(p: Pool, expiry: int, period: int, at: int, again: int)
    requires expiry <= at
    ensures var id, p1 := p.nextId, Apply(p, Schedule(expiry, period));
            && p1.nextId == id + 1 && IsLive(p1, id) && p1.status[id].entry == Entry(id, expiry, period, false)
            && Enabled(p1, Extract(id, at))
            && var p2 := Apply(p1, Extract(id, at));
               && !IsLive(p2, id) && Enabled(p2, Fire(id))
               && var p3 := Apply(p2, Fire(id));
                  && p3.history == p.history + [Fired(Entry(id, expiry, period, false), at)]
                  && !Enabled(p3, Fire(id)) && Enabled(p3, Retire(id, again))
                  && var p4 := Apply(p3, Retire(id, again));
                     && !IsOut(p4, id)
                     && (if period > 0 then p4.status[id] == Live(Entry(id, again, period, false)) else p4.status[id].Done?)
  {}

  /** A cancellation takes exactly a live timer, and is recorded. */
  lemma {:induction false} CancelOutcome(p: Pool, id: nat)
    ensures var p' := Apply(p, Cancel(id));
            && !IsLive(p', id)
            && (forall k :: k != id ==>
                  (k in p'.status <==> k in p.status) && (k in p.status ==> p'.status[k] == p.status[k]))
            && p'.history == (if IsLive(p, id) then p.history + [Cancelled(id)] else p.history)
  {}
}
