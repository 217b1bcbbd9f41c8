/**
 The hierarchical timer wheel (src/timer_wheel.cpp) as an object that refines the timer pool.

 Times are integers (nanoseconds).  Each reading of the clock is the next value of an arbitrary sequence.
 The timers that processExpired has taken out and not yet finished, by whatever threads,
 are kept in `expired`; between taking out, firing and finishing, any other operation may happen.
 */
module HierarchicalWheel {
  import opened TimerPool
  import opened WheelArithmetic
  import opened WheelContents
  import opened Wrappers

  ghost function LiveCount(p: Pool, e: Entry): nat { if IsLive(p, e.id) && p.status[e.id].entry == e then 1 else 0 }
  ghost function OutCount(p: Pool, e: Entry): nat { if IsOut(p, e.id) && p.status[e.id].entry == e then 1 else 0 }

  /** The wheels hold exactly the live timers, each once. */
  ghost predicate HoldsLive(p: Pool, bag: multiset<Entry>) { forall e :: bag[e] == LiveCount(p, e) }

  /** The timers in processing are exactly those taken out, each once. */
  ghost predicate HoldsOut(p: Pool, bag: multiset<Entry>) { forall e :: bag[e] == OutCount(p, e) }

  class TimerWheel {
    const config: Config
    const clock: nat -> int
    var readings: nat
    var wheels: Wheels
    var currentSlots: seq<nat>
    var nextId: nat
    var activeCount: int
    var expired: seq<Entry>
    ghost var ticks: nat
    ghost var pool: Pool

    /** The wheels are well formed and the slot counters in range. */
    ghost predicate Geared()
      reads this`wheels, this`currentSlots
    {
      && config.Valid()
      && Shape(config, wheels)
      && |currentSlots| == config.levels
      && (forall w :: 0 <= w < |currentSlots| ==> currentSlots[w] < config.size)
    }

    /** Between operations the slot counters show the number of ticks so far. */
    ghost predicate Turning()
      reads this`wheels, this`currentSlots, this`ticks
    {
      Geared() && currentSlots == Digits(ticks, config.levels, config.size)
    }

    ghost predicate Valid()
      reads this
    {
      && Turning()
      && Inv(pool) && nextId == pool.nextId
      && HoldsLive(pool, LiveAll(wheels))
      && HoldsOut(pool, multiset(expired))
      && activeCount == |LiveAll(wheels)| + |expired|
    }

    constructor (config: Config, clock: nat -> int)
      requires config.size > 0 && config.levels > 0
      ensures this.config == config && Empty()
      ensures config.tick > 0 ==> Valid()
    {
      this.config, this.clock := config, clock;
      readings := 0;
      wheels := seq(config.levels, w => seq(config.size, s => []));
      currentSlots := seq(config.levels, w => 0);
      nextId, activeCount, expired := 1, 0, [];
      ticks, pool := 0, Start();
      new;
      StartInv();
      EmptyWheels(config.levels, config.size);
      ZeroDigits(config.levels, config.size);
    }

    /** No timer has been scheduled and no tick has passed. */
    ghost predicate Empty()
      reads this
    {
      && Shape(config, wheels) && LiveAll(wheels) == multiset{} && expired == []
      && currentSlots == seq(config.levels, w => 0)
      && pool == Start() && nextId == 1 && ticks == 0 && activeCount == 0
    }

    /** The source's constructor, which throws when there are no wheels or no slots. */
    static method Create(config: Config, clock: nat -> int) returns (r: Option<TimerWheel>)
      ensures r.None? <==> config.size == 0 || config.levels == 0
      ensures r.Some? ==> fresh(r.value) && r.value.config == config && r.value.Empty()
      ensures r.Some? && config.tick > 0 ==> r.value.Valid()
    {
      if config.size == 0 || config.levels == 0 { return None; }
      var t := new TimerWheel(config, clock);
      return Some(t);
    }

    method Now() returns (now: int)
      modifies this`readings
      ensures now == clock(old(readings)) && readings == old(readings) + 1
    {
      now := clock(readings);
      readings := readings + 1;
    }

    method ComputeSlot(delay: nat, w: nat) returns (slot: nat)
      requires config.Valid()
      ensures slot == SlotFor(config, delay, w)
    {
      var ticksPerSlot := config.tick;
      for i := 0 to w
        invariant ticksPerSlot == Span(config, i)
      {
        ticksPerSlot := ticksPerSlot * config.size;
      }
      SpanPositive(config, w);
      slot := delay / ticksPerSlot;
    }

    /** The loop of insert: finds the wheel and the distance from its current slot. */
    method FindSlot(delay: nat) returns (w: nat, offset: nat)
      requires config.Valid()
      ensures w == Pick(config, delay, 0) && w < config.levels && offset == Offset(config, delay)
    {
      hide SlotFor;
      PickIsLeast(config, delay, 0);
      w := 0;
      offset := ComputeSlot(delay, 0);
      while offset >= config.size && w != config.levels - 1
        invariant 0 <= w < config.levels && offset == SlotFor(config, delay, w)
        invariant Pick(config, delay, w) == Pick(config, delay, 0)
        decreases config.levels - w
      {
        w := w + 1;
        offset := ComputeSlot(delay, w);
      }
      if offset > config.size - 1 { offset := config.size - 1; }
    }

    /** Appends the entry to the slot that its delay selects. */
    method Insert(entry: Entry)
      requires Geared()
      modifies this`wheels, this`readings
      ensures Geared()
      ensures wheels == Place(config, currentSlots, old(wheels), entry, clock(old(readings)))
      ensures LiveAll(wheels) == LiveAll(old(wheels)) + if entry.cancelled then multiset{} else multiset{entry}
    {
      hide Pick, Offset, LiveAll;
      var now := Now();
      var delay: nat := if entry.expiry > now then entry.expiry - now else 0;
      PlaceLive(config, currentSlots, wheels, entry, now);
      var w, offset := FindSlot(delay);
      var actual := (currentSlots[w] + offset) % config.size;
      wheels := PutSlot(wheels, w, actual, wheels[w][actual] + [entry]);
    }

    /** Empties the current slot of wheel w; what is not cancelled moves to where it belongs now. */
    method Cascade(w: nat)
      requires Geared() && w < config.levels
      modifies this`wheels, this`readings
      ensures Geared() && LiveAll(wheels) == LiveAll(old(wheels))
      ensures w >= 1 && config.size > 1 ==> wheels[w][currentSlots[w]] == []
    {
      hide LiveAll, LiveIn, Place;
      var s := currentSlots[w];
      var entries := wheels[w][s];
      SlotUpdate(wheels, w, s, []);
      wheels := PutSlot(wheels, w, s, []);
      ghost var base := LiveAll(wheels);
      NothingLive();
      assert base + LiveIn(entries) == LiveAll(old(wheels));
      for i := 0 to |entries|
        invariant Geared() && LiveAll(wheels) == base + LiveIn(entries[..i])
        invariant w >= 1 && config.size > 1 ==> wheels[w][s] == []
      {
        assert entries[..i + 1] == entries[..i] + [entries[i]];
        LiveAppend(entries[..i], entries[i]);
        if !entries[i].cancelled {
          if w >= 1 && config.size > 1 { PlaceAvoids(config, currentSlots, wheels, entries[i], clock(readings), w); }
          Insert(entries[i]);
        }
      }
      assert entries[..|entries|] == entries;
    }

    /** One tick: the counters advance, and every counter that is carried into drains its slot first. */
    method Tick()
      requires Turning()
      modifies this`wheels, this`readings, this`currentSlots, this`ticks
      ensures Turning() && ticks == old(ticks) + 1 && LiveAll(wheels) == LiveAll(old(wheels))
    {
      hide LiveAll, Digits;
      TickCounts(ticks, config.levels, config.size);
      ghost var next := Inc(currentSlots, config.size);
      currentSlots := currentSlots[0 := (currentSlots[0] + 1) % config.size];
      if currentSlots[0] == 0 {
        Carry(next);
      }
      ticks := ticks + 1;
    }

    /** The inner loop of advance, entered when counter 0 has wrapped. */
    method Carry(ghost next: seq<nat>)
      requires Geared() && next == currentSlots[..1] + Inc(currentSlots[1..], config.size)
      modifies this`wheels, this`readings, this`currentSlots
      ensures Geared() && currentSlots == next && LiveAll(wheels) == LiveAll(old(wheels))
      ensures config.levels > 1 && config.size > 1 && next[1] != 0 ==> wheels[1][old(currentSlots)[1]] == []
    {
      hide LiveAll;
      var w := 1;
      while w < config.levels
        invariant 1 <= w <= config.levels && Geared() && LiveAll(wheels) == LiveAll(old(wheels))
        invariant next == currentSlots[..w] + Inc(currentSlots[w..], config.size)
        invariant w == 1 ==> currentSlots == old(currentSlots)
        invariant w > 1 ==> next[1] == 0
        decreases config.levels - w
      {
        Cascade(w);
        CarryOne(currentSlots, w, config.size);
        currentSlots := currentSlots[w := (currentSlots[w] + 1) % config.size];
        if currentSlots[w] != 0 {
          return;
        }
        w := w + 1;
      }
      assert currentSlots[..w] == currentSlots;
    }

    /** Advances by as many whole ticks as have elapsed; no timer is lost or gained on the way. */
    method Advance(elapsed: int)
      requires Valid()
      modifies this`wheels, this`readings, this`currentSlots, this`ticks
      ensures Valid() && LiveAll(wheels) == LiveAll(old(wheels))
      ensures ticks == old(ticks) + if elapsed > 0 then elapsed / config.tick else 0
    {
      hide LiveAll, Digits, Inv;
      var n := if elapsed > 0 then elapsed / config.tick else 0;
      for i := 0 to n
        invariant Turning() && ticks == old(ticks) + i && LiveAll(wheels) == LiveAll(old(wheels))
      {
        Tick();
      }
    }

    /** What schedule and schedulePeriodic share: expiry is the clock plus the delay. */
    method Add(delay: int, period: int) returns (id: nat)
      requires Valid()
      modifies this`wheels, this`readings, this`nextId, this`activeCount, this`pool
      ensures Valid() && id == old(nextId) && activeCount == old(activeCount) + 1
      ensures pool == Apply(old(pool), Event.Schedule(clock(old(readings)) + delay, period))
    {
      hide LiveAll, Inv, Place, Geared, Digits, HoldsLive, HoldsOut;
      var now := Now();
      var entry := Entry(nextId, now + delay, period, false);
      ghost var e := Event.Schedule(entry.expiry, period);
      StepInv(pool, e);
      ScheduleTies(pool, LiveAll(wheels), multiset(expired), entry);
      id := nextId;
      nextId := nextId + 1;
      Insert(entry);
      activeCount := activeCount + 1;
      pool := Apply(pool, e);
    }

    /** A one-shot timer. */
    method Schedule(delay: int) returns (id: nat)
      requires Valid()
      modifies this`wheels, this`readings, this`nextId, this`activeCount, this`pool
      ensures Valid() && id == old(nextId) && activeCount == old(activeCount) + 1
      ensures pool == Apply(old(pool), Event.Schedule(clock(old(readings)) + delay, 0))
    {
      id := Add(delay, 0);
    }

    /** A periodic timer; a period that is not positive is refused. */
    method SchedulePeriodic(period: int) returns (ok: bool, id: nat)
      requires Valid()
      modifies this`wheels, this`readings, this`nextId, this`activeCount, this`pool
      ensures Valid() && ok == (period > 0)
      ensures !ok ==> wheels == old(wheels) && pool == old(pool) && activeCount == old(activeCount)
      ensures ok ==> id == old(nextId) && activeCount == old(activeCount) + 1
      ensures ok ==> pool == Apply(old(pool), Event.Schedule(clock(old(readings)) + period, period))
    {
      if period <= 0 { return false, 0; }
      id := Add(period, period);
      ok := true;
    }

    /** Cancels the live timer with this id, if there is one in the wheels. */
    method Cancel(id: nat) returns (ok: bool)
      requires Valid()
      modifies this`wheels, this`activeCount, this`pool
      ensures Valid() && pool == Apply(old(pool), Event.Cancel(id))
      ensures ok <==> IsLive(old(pool), id)
    {
      hide LiveAll, LiveIn, Inv, Digits, HoldsLive, HoldsOut;
      StepInv(pool, Event.Cancel(id));
      var w, s, k := FindTimer(wheels, id);
      if w == |wheels| {
        NotLive(pool, wheels, id);
        return false;
      }
      var q := wheels[w][s];
      var q' := q[k := q[k].(cancelled := true)];
      FoundIsLive(pool, wheels, w, s, k);
      CancelTies(pool, wheels, w, s, k, multiset(expired));
      wheels := PutSlot(wheels, w, s, q');
      activeCount := activeCount - 1;
      pool := Apply(pool, Event.Cancel(id));
      return true;
    }

    /** The first, locked part of processExpired: takes the expired timers out of the current slot. */
    method ExtractExpired() returns (ghost es: seq<Event>)
      requires Valid()
      modifies this`wheels, this`readings, this`expired, this`pool
      ensures Valid()
      ensures var slot, now := old(wheels)[0][currentSlots[0]], clock(old(readings));
              && expired == old(expired) + Due(slot, now)
              && wheels == PutSlot(old(wheels), 0, currentSlots[0], NotDue(slot, now))
      ensures IsRun(old(pool), es) && pool == Exec(old(pool), es)
      ensures forall i :: 0 <= i < |es| ==> es[i].Extract? && es[i].at == clock(old(readings))
    {
      hide LiveAll, LiveIn, Inv, Digits, HoldsLive, HoldsOut, Taken, Split, Due, NotDue;
      var now := Now();
      var slot := wheels[0][currentSlots[0]];
      var kept, out := SplitSlot(slot, now);
      ghost var p';
      p', es := TakeAll(pool, wheels, currentSlots[0], |slot|, multiset(expired), now);
      assert slot[..|slot|] == slot;
      SlotUpdate(wheels, 0, currentSlots[0], kept);
      Settle(p', wheels, currentSlots[0], kept, out, expired);
      pool := p';
      wheels := PutSlot(wheels, 0, currentSlots[0], kept);
      expired := expired + out;
    }

    /** processExpired runs the callback of an entry it has taken out; the entry is never cancelled. */
    method Fire(i: nat) returns (runs: bool)
      requires Valid() && i < |expired| && IsOut(pool, expired[i].id) && !pool.status[expired[i].id].fired
      modifies this`pool
      ensures Valid() && runs && pool == Apply(old(pool), Event.Fire(expired[i].id))
    {
      hide LiveAll, Inv, Digits, HoldsLive, HoldsOut;
      OutEntry(pool, multiset(expired), expired[i]);
      StepInv(pool, Event.Fire(expired[i].id));
      runs := !expired[i].cancelled;
      FireTies(pool, LiveAll(wheels), multiset(expired), expired[i].id);
      pool := Apply(pool, Event.Fire(expired[i].id));
    }

    /** After its callback an entry is put back with a new expiry, or forgotten. */
    method Finish(i: nat)
      requires Valid() && i < |expired| && IsOut(pool, expired[i].id) && pool.status[expired[i].id].fired
      modifies this`wheels, this`readings, this`activeCount, this`expired, this`pool
      ensures Valid() && expired == Without(old(expired), i)
      ensures pool == Apply(old(pool), Event.Retire(old(expired)[i].id, clock(old(readings)) + old(expired)[i].period))
    {
      hide Apply, Without, Inv, LiveAll, Digits;
      OutEntry(pool, multiset(expired), expired[i]);
      if expired[i].period > 0 && !expired[i].cancelled {
        PutBack(i);
      } else {
        Forget(i);
      }
    }

    method PutBack(i: nat)
      requires Valid() && i < |expired| && IsOut(pool, expired[i].id)
      requires pool.status[expired[i].id].fired && expired[i].period > 0
      modifies this`wheels, this`readings, this`expired, this`pool
      ensures Valid() && expired == Without(old(expired), i)
      ensures pool == Apply(old(pool), Event.Retire(old(expired)[i].id, clock(old(readings)) + old(expired)[i].period))
    {
      hide LiveAll, Inv, Place, Geared, Digits, HoldsLive, HoldsOut, Without;
      var x := expired[i];
      OutEntry(pool, multiset(expired), x);
      ghost var e := Event.Retire(x.id, clock(readings) + x.period);
      StepInv(pool, e);
      RemoveOne(expired, i);
      FinishTies(pool, LiveAll(wheels), multiset(expired), x, e.expiry);
      pool := Apply(pool, e);
      expired := Without(expired, i);
      var now := Now();
      Insert(x.(expiry := now + x.period));
    }

    method Forget(i: nat)
      requires Valid() && i < |expired| && IsOut(pool, expired[i].id)
      requires pool.status[expired[i].id].fired && expired[i].period <= 0
      modifies this`activeCount, this`expired, this`pool
      ensures Valid() && expired == Without(old(expired), i)
      ensures pool == Apply(old(pool), Event.Retire(old(expired)[i].id, clock(readings) + old(expired)[i].period))
    {
      hide LiveAll, Inv, Digits, HoldsLive, HoldsOut, Without;
      var x := expired[i];
      OutEntry(pool, multiset(expired), x);
      ghost var e := Event.Retire(x.id, clock(readings) + x.period);
      StepInv(pool, e);
      RemoveOne(expired, i);
      FinishTies(pool, LiveAll(wheels), multiset(expired), x, e.expiry);
      pool := Apply(pool, e);
      expired := Without(expired, i);
      activeCount := activeCount - 1;
    }
  }

  /** The loop over the current slot: cancelled entries are dropped, expired ones taken out, others kept. */
  method SplitSlot(slot: seq<Entry>, now: int) returns (kept: seq<Entry>, out: seq<Entry>)
    ensures kept == NotDue(slot, now) && out == Due(slot, now)
  {
    kept, out := [], [];
    for i := 0 to |slot|
      invariant kept == NotDue(slot[..i], now) && out == Due(slot[..i], now)
    {
      assert slot[..i + 1][..i] == slot[..i];
      if slot[i].cancelled {
      } else if slot[i].expiry <= now {
        out := out + [slot[i]];
      } else {
        kept := kept + [slot[i]];
      }
    }
    assert slot[..|slot|] == slot;
  }

  method FindInSlot(q: seq<Entry>, id: nat) returns (k: nat)
    ensures k <= |q| && (k < |q| ==> Matches(q[k], id))
    ensures k == |q| ==> forall j :: 0 <= j < |q| ==> !Matches(q[j], id)
  {
    k := 0;
    while k < |q|
      invariant 0 <= k <= |q| && forall j :: 0 <= j < k ==> !Matches(q[j], id)
    {
      if q[k].id == id && !q[k].cancelled { return; }
      k := k + 1;
    }
  }

  method FindInRow(row: seq<seq<Entry>>, id: nat) returns (s: nat, k: nat)
    ensures s <= |row| && (s < |row| ==> k < |row[s]| && Matches(row[s][k], id))
    ensures s == |row| ==> NoMatch(row, id)
  {
    s, k := 0, 0;
    while s < |row|
      invariant 0 <= s <= |row| && forall r, j :: 0 <= r < s && 0 <= j < |row[r]| ==> !Matches(row[r][j], id)
    {
      k := FindInSlot(row[s], id);
      if k < |row[s]| { return; }
      s := s + 1;
    }
  }

  /** The three nested loops of cancel: the first entry with this id that is not cancelled. */
  method FindTimer(ws: Wheels, id: nat) returns (w: nat, s: nat, k: nat)
    ensures w <= |ws| && (w < |ws| ==> s < |ws[w]| && k < |ws[w][s]| && Matches(ws[w][s][k], id))
    ensures w == |ws| ==> forall v :: 0 <= v < |ws| ==> NoMatch(ws[v], id)
  {
    w, s, k := 0, 0, 0;
    while w < |ws|
      invariant 0 <= w <= |ws| && forall v :: 0 <= v < w ==> NoMatch(ws[v], id)
    {
      s, k := FindInRow(ws[w], id);
      if s < |ws[w]| { return; }
      w := w + 1;
    }
  }

  lemma {:induction false} ExecAppend(p: Pool, es: seq<Event>, e: Event)
    requires IsRun(p, es) && Enabled(Exec(p, es), e)
    ensures IsRun(p, es + [e]) && Exec(p, es + [e]) == Apply(Exec(p, es), e)
    decreases |es|
  {
    var all := es + [e];
    if es == [] {
      assert all[1..] == [];
    } else {
      assert all[1..] == es[1..] + [e];
      ExecAppend(Apply(p, es[0]), es[1..], e);
    }
  }

  // How each operation keeps the wheels and the pool in step

  lemma {:induction false} ScheduleTies(p: Pool, live: multiset<Entry>, out: multiset<Entry>, x: Entry)
    requires Inv(p) && HoldsLive(p, live) && HoldsOut(p, out) && x.id == p.nextId && !x.cancelled
    ensures HoldsLive(Apply(p, Event.Schedule(x.expiry, x.period)), live + multiset{x})
    ensures HoldsOut(Apply(p, Event.Schedule(x.expiry, x.period)), out)
  {
    var p' := Apply(p, Event.Schedule(x.expiry, x.period));
    assert x.id !in p.status;
    forall e ensures (live + multiset{x})[e] == LiveCount(p', e) { assert live[e] == LiveCount(p, e); }
    forall e ensures out[e] == OutCount(p', e) { assert out[e] == OutCount(p, e); }
  }

  lemma {:induction false} NotLive(p: Pool, ws: Wheels, id: nat)
    requires Inv(p) && HoldsLive(p, LiveAll(ws)) && forall w :: 0 <= w < |ws| ==> NoMatch(ws[w], id)
    ensures !IsLive(p, id)
  {
    if IsLive(p, id) {
      var x := p.status[id].entry;
      assert LiveAll(ws)[x] == LiveCount(p, x);
      NoneAtAll(ws, id, x);
    }
  }

  lemma {:induction false} FoundIsLive(p: Pool, ws: Wheels, w: nat, s: nat, k: nat)
    requires HoldsLive(p, LiveAll(ws)) && w < |ws| && s < |ws[w]| && k < |ws[w][s]| && !ws[w][s][k].cancelled
    ensures IsLive(p, ws[w][s][k].id) && p.status[ws[w][s][k].id].entry == ws[w][s][k]
  {
    var x := ws[w][s][k];
    LiveInHas(ws[w][s], k);
    SlotWithinAll(ws, w, s);
    assert LiveAll(ws)[x] == LiveCount(p, x);
  }

  lemma {:induction false} CancelTies(p: Pool, ws: Wheels, w: nat, s: nat, k: nat, out: multiset<Entry>)
    requires Inv(p) && HoldsLive(p, LiveAll(ws)) && HoldsOut(p, out)
    requires w < |ws| && s < |ws[w]| && k < |ws[w][s]| && !ws[w][s][k].cancelled
    requires var x := ws[w][s][k]; IsLive(p, x.id) && p.status[x.id].entry == x
    ensures var x := ws[w][s][k];
            var ws' := PutSlot(ws, w, s, ws[w][s][k := x.(cancelled := true)]);
            && LiveAll(ws) == LiveAll(ws') + multiset{x}
            && HoldsLive(Apply(p, Event.Cancel(x.id)), LiveAll(ws'))
            && HoldsOut(Apply(p, Event.Cancel(x.id)), out)
  {
    hide LiveAll, LiveIn, Inv;
    var q, x := ws[w][s], ws[w][s][k];
    var q' := q[k := x.(cancelled := true)];
    var p', live' := Apply(p, Event.Cancel(x.id)), LiveAll(PutSlot(ws, w, s, q'));
    MarkCancelled(q, k);
    SlotUpdate(ws, w, s, q');
    forall e
      ensures LiveAll(ws)[e] == (live' + multiset{x})[e] && live'[e] == LiveCount(p', e) && out[e] == OutCount(p', e)
    {
      assert (live' + LiveIn(q))[e] == (LiveAll(ws) + LiveIn(q'))[e];
      assert LiveAll(ws)[e] == LiveCount(p, e) && out[e] == OutCount(p, e);
      if e != x && e.id == x.id { assert LiveCount(p, e) == 0; }
    }
  }

  /** The live entries looked at so far are those kept and those taken out. */
  ghost predicate Split(seen: seq<Entry>, kept: seq<Entry>, out: seq<Entry>) {
    LiveIn(seen) == LiveIn(kept) + multiset(out)
  }

  lemma {:induction false} SplitOne(seen: seq<Entry>, kept: seq<Entry>, out: seq<Entry>, x: Entry)
    requires Split(seen, kept, out)
    ensures x.cancelled ==> Split(seen + [x], kept, out)
    ensures !x.cancelled ==> Split(seen + [x], kept + [x], out) && Split(seen + [x], kept, out + [x])
  {
    hide LiveIn;
    LiveAppend(seen, x);
    LiveAppend(kept, x);
  }

  /** The wheels still hold the live timers and, in addition, those already taken out. */
  ghost predicate Taken(p: Pool, live: multiset<Entry>, before: multiset<Entry>, out: multiset<Entry>) {
    && (forall e :: live[e] == LiveCount(p, e) + out[e])
    && HoldsOut(p, before + out)
  }

  lemma {:induction false} NothingTaken(p: Pool, live: multiset<Entry>, before: multiset<Entry>)
    requires HoldsLive(p, live) && HoldsOut(p, before)
    ensures Split([], [], []) && Taken(p, live, before, multiset([]))
  {
    assert before + multiset([]) == before;
  }

  lemma {:induction false} TakeOne(p: Pool, ws: Wheels, s: nat, i: nat, kept: seq<Entry>, out: seq<Entry>,
                                   before: multiset<Entry>, now: int)
    requires |ws| > 0 && s < |ws[0]| && i < |ws[0][s]| && !ws[0][s][i].cancelled && ws[0][s][i].expiry <= now
    requires Split(ws[0][s][..i], kept, out) && Taken(p, LiveAll(ws), before, multiset(out))
    ensures var x := ws[0][s][i];
            && Enabled(p, Event.Extract(x.id, now))
            && Taken(Apply(p, Event.Extract(x.id, now)), LiveAll(ws), before, multiset(out + [x]))
  {
    hide LiveAll, LiveIn;
    var q, x := ws[0][s], ws[0][s][i];
    LiveInHas(q, i);
    SlotWithinAll(ws, 0, s);
    assert LiveAll(ws)[x] == LiveCount(p, x) + multiset(out)[x];
    assert LiveIn(q[..i])[x] == (LiveIn(kept) + multiset(out))[x];
    var p' := Apply(p, Event.Extract(x.id, now));
    forall e
      ensures LiveAll(ws)[e] == LiveCount(p', e) + multiset(out + [x])[e]
      ensures (before + multiset(out + [x]))[e] == OutCount(p', e)
    {
      assert LiveAll(ws)[e] == LiveCount(p, e) + multiset(out)[e];
      assert (before + multiset(out))[e] == OutCount(p, e);
      if e != x && e.id == x.id { assert LiveCount(p, e) == 0 && OutCount(p, e) == 0; }
    }
  }

  lemma {:induction false} Settle(p: Pool, ws: Wheels, s: nat, kept: seq<Entry>, out: seq<Entry>, before: seq<Entry>)
    requires |ws| > 0 && s < |ws[0]| && Split(ws[0][s], kept, out)
    requires Taken(p, LiveAll(ws), multiset(before), multiset(out))
    ensures var live' := LiveAll(PutSlot(ws, 0, s, kept));
            && HoldsLive(p, live') && HoldsOut(p, multiset(before + out))
            && |live'| + |out| == |LiveAll(ws)|
  {
    hide LiveAll, LiveIn;
    var live, live', slot := LiveAll(ws), LiveAll(PutSlot(ws, 0, s, kept)), LiveIn(ws[0][s]);
    SlotUpdate(ws, 0, s, kept);
    forall e ensures live[e] == (live' + multiset(out))[e] && live'[e] == LiveCount(p, e) {
      assert (live' + slot)[e] == (live + LiveIn(kept))[e];
      assert slot[e] == (LiveIn(kept) + multiset(out))[e];
      assert live[e] == LiveCount(p, e) + multiset(out)[e];
    }
    assert live == live' + multiset(out);
    assert multiset(before + out) == multiset(before) + multiset(out);
  }

  lemma {:induction false} OutEntry(p: Pool, bag: multiset<Entry>, x: Entry)
    requires Inv(p) && HoldsOut(p, bag) && bag[x] > 0
    ensures IsOut(p, x.id) && p.status[x.id].entry == x && !x.cancelled
  {
    assert bag[x] == OutCount(p, x);
  }

  lemma {:induction false} FireTies(p: Pool, live: multiset<Entry>, out: multiset<Entry>, id: nat)
    requires HoldsLive(p, live) && HoldsOut(p, out) && Enabled(p, Event.Fire(id))
    ensures HoldsLive(Apply(p, Event.Fire(id)), live) && HoldsOut(Apply(p, Event.Fire(id)), out)
  {
    var p' := Apply(p, Event.Fire(id));
    forall e ensures live[e] == LiveCount(p', e) && out[e] == OutCount(p', e)
    {
      assert live[e] == LiveCount(p, e) && out[e] == OutCount(p, e);
    }
  }

  lemma {:induction false} FinishTies(p: Pool, live: multiset<Entry>, out: multiset<Entry>, x: Entry, expiry: int)
    requires HoldsLive(p, live) && HoldsOut(p, out) && IsOut(p, x.id) && p.status[x.id].entry == x && p.status[x.id].fired
    ensures var p' := Apply(p, Event.Retire(x.id, expiry));
            && HoldsOut(p', out - multiset{x})
            && (x.period > 0 ==> HoldsLive(p', live + multiset{x.(expiry := expiry)}))
            && (x.period <= 0 ==> HoldsLive(p', live))
            && |live + multiset{x.(expiry := expiry)}| == |live| + 1
  {
    var p' := Apply(p, Event.Retire(x.id, expiry));
    var live' := if x.period > 0 then live + multiset{x.(expiry := expiry)} else live;
    forall e ensures (out - multiset{x})[e] == OutCount(p', e) && live'[e] == LiveCount(p', e) {
      assert live[e] == LiveCount(p, e) && out[e] == OutCount(p, e);
      if e.id == x.id { assert LiveCount(p, e) == 0; }
    }
  }

  function Without(xs: seq<Entry>, i: nat): seq<Entry>
    requires i < |xs|
  {
    xs[..i] + xs[i + 1..]
  }

  lemma {:induction false} RemoveOne(xs: seq<Entry>, i: nat)
    requires i < |xs|
    ensures multiset(Without(xs, i)) == multiset(xs) - multiset{xs[i]} && |Without(xs, i)| == |xs| - 1
  {
    assert xs == xs[..i] + [xs[i]] + xs[i + 1..];
    assert multiset(xs) == multiset(xs[..i]) + multiset{xs[i]} + multiset(xs[i + 1..]);
  }

  lemma {:induction false} NothingLive()
    ensures LiveIn([]) == multiset{}
  {}

  /** A carry into counter w: it advances, and passes the carry on exactly if it wraps. */
  lemma {:induction false} CarryOne(slots: seq<nat>, w: nat, size: nat)
    requires size > 0 && w < |slots|
    ensures var d := (slots[w] + 1) % size;
            var slots' := slots[w := d];
            slots[..w] + Inc(slots[w..], size) ==
              if d != 0 then slots' else slots'[..w + 1] + Inc(slots'[w + 1..], size)
  {
    var d := (slots[w] + 1) % size;
    var slots' := slots[w := d];
    assert slots[w..][1..] == slots[w + 1..] == slots'[w + 1..];
    assert slots'[..w + 1] == slots[..w] + [d];
  }

  /** Re-inserting while wheel w's current slot is drained never puts anything back into it. */
  lemma {:induction false} PlaceAvoids(c: Config, slots: seq<nat>, ws: Wheels, entry: Entry, now: int, w: nat)
    requires c.Valid() && c.size > 1 && |slots| == c.levels && Shape(c, ws) && 1 <= w < c.levels && slots[w] < c.size
    ensures Shape(c, Place(c, slots, ws, entry, now))
    ensures Place(c, slots, ws, entry, now)[w][slots[w]] == ws[w][slots[w]]
  {
    hide Pick, Offset;
    if Pick(c, Delay(entry, now), 0) == w { NeverIntoCurrentSlot(c, Delay(entry, now), slots[w]); }
  }

  function Delay(entry: Entry, now: int): nat { if entry.expiry > now then entry.expiry - now else 0 }

  /** The slot of its wheel that an entry inserted at `now` goes to. */
  function Target(c: Config, slots: seq<nat>, entry: Entry, now: int): (t: (nat, nat))
    requires c.Valid() && |slots| == c.levels
    ensures t.0 < c.levels && t.1 < c.size
  {
    PickIsLeast(c, Delay(entry, now), 0);
    var w := Pick(c, Delay(entry, now), 0);
    (w, (slots[w] + Offset(c, Delay(entry, now))) % c.size)
  }

  /**
   The slot of an entry comes up in time: k ticks after the insertion it is the current slot of its wheel, where k
   ticks are the delay rounded down to slots of that wheel (for delays within the reach of the wheels).
   */
  lemma {:induction false} TargetComesUp(c: Config, ticks: nat, entry: Entry, now: int)
    requires c.Valid()
    ensures var (w, s) := Target(c, Digits(ticks, c.levels, c.size), entry, now);
            var k := Offset(c, Delay(entry, now)) * Pow(c.size, w);
            && Digits(ticks + k, c.levels, c.size)[w] == s
            && (Delay(entry, now) < Reach(c, w) ==>
                  k * c.tick <= Delay(entry, now) < k * c.tick + Span(c, w))
  {
    hide Digits, Pow, Pick, Offset, Reach, Span;
    var d, slots := Delay(entry, now), Digits(ticks, c.levels, c.size);
    var (w, s) := Target(c, slots, entry, now);
    WheelMovesOn(ticks, c.levels, c.size, w, Offset(c, d));
    OffsetMeasuresDelay(c, d);
    SpanIsPower(c, w);
    Regrouped(Offset(c, d), c.tick, Pow(c.size, w));
  }

  lemma {:induction false} Regrouped(o: nat, tick: int, p: nat)
    ensures o * p * tick == o * (tick * p) && (o + 1) * (tick * p) == o * (tick * p) + tick * p
  {}

  /** The delay is what is left until the expiry, and nothing for a timer that has expired. */
  lemma {:induction false} DelayIsRest(entry: Entry, now: int)
    ensures now + Delay(entry, now) >= entry.expiry
    ensures entry.expiry >= now ==> now + Delay(entry, now) == entry.expiry
    ensures entry.expiry <= now ==> Delay(entry, now) == 0
  {}

  /** The live entries of a slot that have expired, in order, and those that have not. */
  function Due(q: seq<Entry>, now: int): seq<Entry> {
    if q == [] then []
    else
      var x := q[|q| - 1];
      Due(q[..|q| - 1], now) + (if !x.cancelled && x.expiry <= now then [x] else [])
  }

  function NotDue(q: seq<Entry>, now: int): seq<Entry> {
    if q == [] then []
    else
      var x := q[|q| - 1];
      NotDue(q[..|q| - 1], now) + (if !x.cancelled && x.expiry > now then [x] else [])
  }

  /** Every live entry is due or not due by its expiry, and nothing else is either. */
  lemma {:induction false} DueOrNot(q: seq<Entry>, now: int, x: Entry)
    ensures x in Due(q, now) <==> x in q && !x.cancelled && x.expiry <= now
    ensures x in NotDue(q, now) <==> x in q && !x.cancelled && x.expiry > now
  {
    if q == [] {
    } else {
      DueOrNot(q[..|q| - 1], now, x);
      assert q == q[..|q| - 1] + [q[|q| - 1]];
    }
  }

  lemma {:induction false} DueAppend(q: seq<Entry>, x: Entry, now: int)
    ensures Due(q + [x], now) == if !x.cancelled && x.expiry <= now then Due(q, now) + [x] else Due(q, now)
    ensures NotDue(q + [x], now) == if !x.cancelled && x.expiry > now then NotDue(q, now) + [x] else NotDue(q, now)
  {
    assert (q + [x])[..|q|] == q;
  }

  lemma {:induction false} NothingDue(now: int)
    ensures Due([], now) == [] && NotDue([], now) == []
  {}

  lemma {:induction false} EmptyRun(p: Pool)
    ensures IsRun(p, []) && Exec(p, []) == p
  {}

  /** Taking the due entries of the first i entries of a slot out of the pool, one by one. */
  lemma {:induction false} TakeAll(p: Pool, ws: Wheels, s: nat, i: nat, before: multiset<Entry>, now: int)
    returns (p': Pool, es: seq<Event>)
    requires |ws| > 0 && s < |ws[0]| && i <= |ws[0][s]|
    requires Inv(p) && HoldsLive(p, LiveAll(ws)) && HoldsOut(p, before)
    ensures var q := ws[0][s][..i];
            Split(q, NotDue(q, now), Due(q, now)) && Taken(p', LiveAll(ws), before, multiset(Due(q, now)))
    ensures IsRun(p, es) && p' == Exec(p, es) && Inv(p') && p'.nextId == p.nextId
    ensures forall j :: 0 <= j < |es| ==> es[j].Extract? && es[j].at == now
    decreases i
  {
    hide LiveAll, LiveIn, Inv, HoldsLive, HoldsOut, Taken, Split, Due, NotDue, Exec, Enabled;
    if i == 0 {
      NothingTaken(p, LiveAll(ws), before);
      assert ws[0][s][..0] == [];
      NothingDue(now);
      p', es := p, [];
      EmptyRun(p);
    } else {
      var q, x := ws[0][s][..i - 1], ws[0][s][i - 1];
      p', es := TakeAll(p, ws, s, i - 1, before, now);
      assert ws[0][s][..i] == q + [x];
      DueAppend(q, x, now);
      SplitOne(q, NotDue(q, now), Due(q, now), x);
      if !x.cancelled && x.expiry <= now {
        TakeOne(p', ws, s, i - 1, NotDue(q, now), Due(q, now), before, now);
        StepInv(p', Event.Extract(x.id, now));
        ExecAppend(p, es, Event.Extract(x.id, now));
        es := es + [Event.Extract(x.id, now)];
        p' := Apply(p', Event.Extract(x.id, now));
      }
    }
  }

  function Place(c: Config, slots: seq<nat>, ws: Wheels, entry: Entry, now: int): Wheels
    requires c.Valid() && |slots| == c.levels && Shape(c, ws)
  {
    var (w, s) := Target(c, slots, entry, now);
    PutSlot(ws, w, s, ws[w][s] + [entry])
  }

  lemma {:induction false} PlaceLive(c: Config, slots: seq<nat>, ws: Wheels, entry: Entry, now: int)
    requires c.Valid() && |slots| == c.levels && Shape(c, ws)
    ensures Shape(c, Place(c, slots, ws, entry, now))
    ensures LiveAll(Place(c, slots, ws, entry, now))
         == LiveAll(ws) + if entry.cancelled then multiset{} else multiset{entry}
  {
    hide LiveAll, LiveIn, Pick, Offset, SlotFor;
    var (w, s) := Target(c, slots, entry, now);
    var q, one := ws[w][s], if entry.cancelled then multiset{} else multiset{entry};
    LiveAppend(q, entry);
    SlotUpdate(ws, w, s, q + [entry]);
    Absorb(LiveAll(Place(c, slots, ws, entry, now)), LiveAll(ws), LiveIn(q), one);
  }

  lemma {:induction false} Absorb(a: multiset<Entry>, b: multiset<Entry>, x: multiset<Entry>, y: multiset<Entry>)
    requires a + x == b + (x + y)
    ensures a == b + y
  {
    forall e ensures a[e] == (b + y)[e] { assert (a + x)[e] == (b + (x + y))[e]; }
  }

  lemma {:induction false} EmptyRow(size: nat)
    ensures LiveRow(seq(size, s => [])) == multiset{}
  {
    if size == 0 {
    } else {
      assert seq(size, s => [])[1..] == seq<seq<Entry>>(size - 1, s => []);
      EmptyRow(size - 1);
    }
  }

  lemma {:induction false} EmptyWheels(levels: nat, size: nat)
    ensures LiveAll(seq(levels, w => seq(size, s => []))) == multiset{}
  {
    if levels == 0 {
    } else {
      EmptyRow(size);
      assert seq(levels, w => seq(size, s => []))[1..] == seq<seq<seq<Entry>>>(levels - 1, w => seq(size, s => []));
      EmptyWheels(levels - 1, size);
    }
  }

  lemma {:induction false} ZeroDigits(k: nat, size: nat)
    requires size > 0
    ensures Digits(0, k, size) == seq(k, w => 0)
  {
    if k == 0 {
    } else {
      ZeroDigits(k - 1, size);
      assert 0 / size == 0 && 0 % size == 0;
    }
  }
}
