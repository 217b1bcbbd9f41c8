/**
 The timers of the epoll event loop (src/async/epoll_loop.cpp): a multimap ordered by expiry, an
 index from timer ids to its nodes, and passes that collect the expired timers, reschedule the periodic ones
 and only then run the collected callbacks.  The clock is an input.
 */
module LoopTimers {

  /** `callback` says whether there is a callback to run. */
  datatype Entry = Entry(id: nat, callback: bool, period: int)

  /** A multimap node; the serial number, given at insertion, is what an iterator refers to. */
  datatype Node = Node(expiry: int, serial: nat, entry: Entry)

  /**
   `collected` and `batch` are the local vectors of a running pass: timers to reschedule and
   callbacks still to run.  `cancelled` remembers the ids whose cancellation succeeded.
   */
  datatype Loop = Loop(byExpiry: seq<Node>, byId: map<nat, nat>, nextId: nat, nextSerial: nat,
                       collected: seq<Entry>, batch: seq<Entry>, cancelled: set<nat>)

  datatype Event =
    | AddTimer(now: int, delay: int, callback: bool, period: int)
    | Cancel(id: nat)
    | BeginPass(now: int)
    | RunCallback

  function Start(): Loop { Loop([], map[], 1, 0, [], [], {}) }

  /** multimap::emplace: behind all nodes that do not expire later. */
  function Insert(ns: seq<Node>, n: Node): seq<Node> {
    if ns == [] || n.expiry < ns[0].expiry then [n] + ns else [ns[0]] + Insert(ns[1..], n)
  }

  function Erase(ns: seq<Node>, serial: nat): seq<Node> {
    if ns == [] then []
    else if ns[0].serial == serial then Erase(ns[1..], serial)
    else [ns[0]] + Erase(ns[1..], serial)
  }

  function Emplace(l: Loop, expiry: int, entry: Entry): Loop {
    l.(byExpiry := Insert(l.byExpiry, Node(expiry, l.nextSerial, entry)),
       byId := l.byId[entry.id := l.nextSerial], nextSerial := l.nextSerial + 1)
  }

  /** The first loop of a pass: takes the expired timers off the front. */
  function Collect(l: Loop, now: int): Loop
    decreases |l.byExpiry|
  {
    if l.byExpiry == [] || l.byExpiry[0].expiry > now then l
    else Collect(CollectOne(l), now)
  }

  function CollectOne(l: Loop): Loop
    requires l.byExpiry != []
  {
    var e := l.byExpiry[0].entry;
    l.(byExpiry := l.byExpiry[1..], byId := l.byId - {e.id},
       collected := if e.period > 0 then l.collected + [e] else l.collected,
       batch := if e.callback then l.batch + [e] else l.batch)
  }

  /** The second loop of a pass: puts the periodic ones back. */
  function Reschedule(l: Loop, now: int): Loop
    decreases |l.collected|
  {
    if l.collected == [] then l else Reschedule(RescheduleOne(l, now), now)
  }

  function RescheduleOne(l: Loop, now: int): Loop
    requires l.collected != []
  {
    Emplace(l.(collected := l.collected[1..]), now + l.collected[0].period, l.collected[0])
  }

  predicate Enabled(l: Loop, e: Event) {
    match e
    case BeginPass(_) => l.batch == [] && l.collected == []
    case RunCallback => l.batch != []
    case _ => true
  }

  function Apply(l: Loop, e: Event): Loop
    requires Enabled(l, e)
  {
    match e
    case AddTimer(now, delay, callback, period) =>
      Emplace(l.(nextId := l.nextId + 1), now + delay, Entry(l.nextId, callback, period))
    case Cancel(id) =>
      if id !in l.byId then l
      else l.(byExpiry := Erase(l.byExpiry, l.byId[id]), byId := l.byId - {id}, cancelled := l.cancelled + {id})
    case BeginPass(now) => Reschedule(Collect(l, now), now)
    case RunCallback => l.(batch := l.batch[1..])
  }

  // Order and the index

  predicate Before(m: Node, n: Node) { m.expiry < n.expiry || (m.expiry == n.expiry && m.serial < n.serial) }

  /** By expiry, then by insertion. */
  predicate Ordered(ns: seq<Node>) { forall i, j :: 0 <= i < j < |ns| ==> Before(ns[i], ns[j]) }

  /** The index and the multimap describe the same timers, one node for each id. */
  ghost predicate Bijection(l: Loop) {
    && (forall n :: n in l.byExpiry ==> n.entry.id in l.byId && l.byId[n.entry.id] == n.serial)
    && (forall id :: id in l.byId ==> exists n :: n in l.byExpiry && n.entry.id == id)
    && (forall m, n :: m in l.byExpiry && n in l.byExpiry && m.serial == n.serial ==> m == n)
  }

  ghost predicate Fresh(l: Loop) {
    && (forall n :: n in l.byExpiry ==> n.serial < l.nextSerial && n.entry.id < l.nextId)
    && (forall id :: id in l.cancelled ==> id < l.nextId && id !in l.byId)
    && (forall e :: e in l.batch ==> e.id < l.nextId)
    && (forall e :: e in l.batch && e.period <= 0 ==> e.id !in l.byId && e.id !in l.cancelled)
    && (forall e, n :: e in l.batch && n in l.byExpiry && n.entry.id == e.id ==> n.entry == e)
  }

  /** Timers taken out to be rescheduled are periodic, distinct, and known to nobody meanwhile. */
  ghost predicate InTransit(l: Loop) {
    && (forall e :: e in l.collected ==> e.period > 0 && e.id < l.nextId && e.id !in l.byId && e.id !in l.cancelled)
    && (forall e, f :: e in l.collected && f in l.batch && e.id == f.id ==> e == f)
    && (forall i, j :: 0 <= i < j < |l.collected| ==> l.collected[i].id != l.collected[j].id)
  }

  ghost predicate Inv(l: Loop) { Ordered(l.byExpiry) && Bijection(l) && Fresh(l) && InTransit(l) }

  lemma {:induction false} InsertMembers(ns: seq<Node>, n: Node)
    ensures forall m :: m in Insert(ns, n) <==> m == n || m in ns
  {
    if ns != [] && ns[0].expiry <= n.expiry {
      InsertMembers(ns[1..], n);
      assert ns == [ns[0]] + ns[1..];
    }
  }

  lemma {:induction false} InsertOrdered(ns: seq<Node>, n: Node)
    requires Ordered(ns) && forall m :: m in ns ==> m.serial < n.serial
    ensures Ordered(Insert(ns, n))
  {
    if ns != [] && ns[0].expiry <= n.expiry {
      var rest := Insert(ns[1..], n);
      forall m | m in ns[1..] ensures m.serial < n.serial { assert m in ns; }
      InsertOrdered(ns[1..], n);
      InsertMembers(ns[1..], n);
      forall k | 0 <= k < |rest| ensures Before(ns[0], rest[k]) {
        assert rest[k] in rest;
        if rest[k] != n {
          assert rest[k] in ns[1..];
          var i :| 0 <= i < |ns[1..]| && ns[1..][i] == rest[k];
          assert ns[i + 1] == rest[k];
        } else {
          assert ns[0] in ns;
        }
      }
    } else if ns != [] {
      forall k | 0 <= k < |ns| ensures Before(n, ns[k]) {
        if k > 0 { assert Before(ns[0], ns[k]); }
      }
    }
  }

  lemma {:induction false} EraseMembers(ns: seq<Node>, serial: nat)
    ensures forall m :: m in Erase(ns, serial) <==> m in ns && m.serial != serial
  {
    if ns == [] {
    } else {
      EraseMembers(ns[1..], serial);
      assert ns == [ns[0]] + ns[1..];
    }
  }

  lemma {:induction false} EraseOrdered(ns: seq<Node>, serial: nat)
    requires Ordered(ns)
    ensures Ordered(Erase(ns, serial))
  {
    if ns == [] {
    } else {
      var rest := Erase(ns[1..], serial);
      EraseOrdered(ns[1..], serial);
      EraseMembers(ns[1..], serial);
      forall k | 0 <= k < |rest| ensures Before(ns[0], rest[k]) {
        assert rest[k] in rest;
        var i :| 0 <= i < |ns[1..]| && ns[1..][i] == rest[k];
        assert ns[i + 1] == rest[k];
      }
    }
  }

  lemma {:induction false} EmplaceInv(l: Loop, expiry: int, entry: Entry)
    requires Inv(l) && entry.id < l.nextId && entry.id !in l.byId && entry.id !in l.cancelled
    requires forall f :: f in l.batch && f.id == entry.id ==> f == entry && f.period > 0
    requires forall f :: f in l.collected ==> f.id != entry.id
    ensures Inv(Emplace(l, expiry, entry))
  {
    hide Ordered, Insert, Bijection;
    var n := Node(expiry, l.nextSerial, entry);
    InsertMembers(l.byExpiry, n);
    InsertOrdered(l.byExpiry, n);
    EmplaceBijection(l, expiry, entry);
  }

  lemma {:induction false} EmplaceBijection(l: Loop, expiry: int, entry: Entry)
    requires Bijection(l) && Fresh(l) && entry.id !in l.byId
    ensures Bijection(Emplace(l, expiry, entry))
  {
    hide Insert;
    var n := Node(expiry, l.nextSerial, entry);
    InsertMembers(l.byExpiry, n);
    var l' := Emplace(l, expiry, entry);
    forall id | id in l'.byId ensures exists m :: m in l'.byExpiry && m.entry.id == id {
      if id == entry.id {
        assert n in l'.byExpiry;
      } else {
        var m :| m in l.byExpiry && m.entry.id == id;
        assert m in l'.byExpiry;
      }
    }
  }

  lemma {:induction false} CancelInv(l: Loop, id: nat)
    requires Inv(l) && id in l.byId
    ensures Inv(Apply(l, Cancel(id)))
  {
    hide Ordered, Erase, Bijection;
    EraseMembers(l.byExpiry, l.byId[id]);
    EraseOrdered(l.byExpiry, l.byId[id]);
    CancelBijection(l, id);
    IndexedIdsAreOld(l);
  }

  lemma {:induction false} CancelBijection(l: Loop, id: nat)
    requires Bijection(l) && id in l.byId
    ensures Bijection(Apply(l, Cancel(id)))
  {
    hide Erase;
    EraseMembers(l.byExpiry, l.byId[id]);
    var l' := Apply(l, Cancel(id));
    forall k | k in l'.byId ensures exists m :: m in l'.byExpiry && m.entry.id == k {
      var m :| m in l.byExpiry && m.entry.id == k;
      var c :| c in l.byExpiry && c.entry.id == id;
      assert m in l'.byExpiry;
    }
  }

  lemma {:induction false} HeadAndTail(ns: seq<Node>)
    requires Ordered(ns) && ns != []
    ensures ns[0] in ns && ns[0] !in ns[1..] && Ordered(ns[1..])
    ensures forall m :: m in ns <==> m == ns[0] || m in ns[1..]
  {
    assert ns == [ns[0]] + ns[1..];
    assert forall i :: 0 <= i < |ns| - 1 ==> ns[1..][i] == ns[i + 1];
  }

  lemma {:induction false} CollectOneBijection(l: Loop)
    requires Ordered(l.byExpiry) && Bijection(l) && l.byExpiry != []
    ensures Ordered(CollectOne(l).byExpiry) && Bijection(CollectOne(l))
  {
    var n, l' := l.byExpiry[0], CollectOne(l);
    HeadAndTail(l.byExpiry);
    forall k | k in l'.byId ensures exists m :: m in l'.byExpiry && m.entry.id == k {
      var m :| m in l.byExpiry && m.entry.id == k;
      assert m in l'.byExpiry;
    }
  }

  lemma {:induction false} CollectOneInv(l: Loop)
    requires Inv(l) && l.byExpiry != []
    ensures Inv(CollectOne(l))
  {
    CollectOneBijection(l);
    var n := l.byExpiry[0];
    assert n in l.byExpiry;
    CollectOneTransit(l, n.entry);
  }

  lemma {:induction false} CollectOneTransit(l: Loop, e: Entry)
    requires Fresh(l) && InTransit(l) && l.byExpiry != [] && e == l.byExpiry[0].entry
    requires e.id in l.byId && e.id < l.nextId
    requires forall n :: n in CollectOne(l).byExpiry ==> n.entry.id in CollectOne(l).byId
    ensures Fresh(CollectOne(l)) && InTransit(CollectOne(l))
  {
    var l' := CollectOne(l);
    forall n | n in l'.byExpiry ensures n in l.byExpiry {}
    forall f | f in l'.collected ensures f in l.collected || (f == e && e.period > 0) {}
    forall f | f in l'.batch ensures f in l.batch || f == e {}
    forall i, j | 0 <= i < j < |l'.collected| ensures l'.collected[i].id != l'.collected[j].id {
      assert l'.collected[i] in l.collected;
    }
  }

  // What a pass does

  /** How many leading nodes have expired. */
  function Expired(ns: seq<Node>, now: int): (k: nat)
    ensures k <= |ns|
  {
    if ns == [] || ns[0].expiry > now then 0 else 1 + Expired(ns[1..], now)
  }

  /** The timers with a callback, in order. */
  function Callbacks(ns: seq<Node>): seq<Entry> {
    if ns == [] then []
    else OwnCallback(ns[0]) + Callbacks(ns[1..])
  }

  function OwnCallback(n: Node): seq<Entry> { if n.entry.callback then [n.entry] else [] }

  lemma {:induction false} CollectInv(l: Loop, now: int)
    requires Inv(l)
    ensures Inv(Collect(l, now))
    decreases |l.byExpiry|
  {
    hide Inv;
    if l.byExpiry != [] && l.byExpiry[0].expiry <= now {
      CollectOneInv(l);
      CollectInv(CollectOne(l), now);
    }
  }

  lemma {:induction false} Assoc(a: seq<Entry>, b: seq<Entry>, c: seq<Entry>)
    ensures a + b + c == a + (b + c)
  {}

  lemma {:induction false} CallbacksHead(ns: seq<Node>, k: nat)
    requires 0 < k <= |ns|
    ensures Callbacks(ns[..k]) == OwnCallback(ns[0]) + Callbacks(ns[1..][..k - 1])
  {
    assert ns[..k][1..] == ns[1..][..k - 1] && ns[..k][0] == ns[0];
  }

  lemma {:induction false} CollectBatch(l: Loop, now: int)
    ensures Collect(l, now).batch == l.batch + Callbacks(l.byExpiry[..Expired(l.byExpiry, now)])
    decreases |l.byExpiry|
  {
    if l.byExpiry != [] && l.byExpiry[0].expiry <= now {
      hide Callbacks;
      var l', k, own := CollectOne(l), Expired(l.byExpiry, now), OwnCallback(l.byExpiry[0]);
      CollectBatch(l', now);
      CallbacksHead(l.byExpiry, k);
      assert l'.batch == l.batch + own;
      Assoc(l.batch, own, Callbacks(l'.byExpiry[..k - 1]));
    } else {
      assert l.batch + [] == l.batch;
    }
  }

  lemma {:induction false} RescheduleOneInv(l: Loop, now: int)
    requires Inv(l) && l.collected != []
    ensures Inv(RescheduleOne(l, now))
  {
    hide Ordered, Bijection, Fresh, InTransit, Emplace;
    var e, m := l.collected[0], l.(collected := l.collected[1..]);
    SameIndex(l, m);
    SameFresh(l, m);
    TakeCollected(l, m, e);
    EmplaceInv(m, now + e.period, e);
  }

  lemma {:induction false} TakeCollected(l: Loop, m: Loop, e: Entry)
    requires InTransit(l) && l.collected != [] && e == l.collected[0] && m == l.(collected := l.collected[1..])
    ensures InTransit(m) && e.id < m.nextId && e.id !in m.byId && e.id !in m.cancelled
    ensures forall f :: f in m.batch && f.id == e.id ==> f == e && f.period > 0
    ensures forall f :: f in m.collected ==> f.id != e.id
  {
    assert e in l.collected;
    forall f | f in m.collected ensures f in l.collected && f.id != e.id {
      var i :| 0 <= i < |m.collected| && m.collected[i] == f;
      assert l.collected[i + 1] == f;
    }
  }

  lemma {:induction false} SameFresh(l: Loop, m: Loop)
    requires Fresh(l) && m == l.(collected := m.collected)
    ensures Fresh(m)
  {}

  lemma {:induction false} SameIndex(l: Loop, m: Loop)
    requires Bijection(l) && l.byExpiry == m.byExpiry && l.byId == m.byId
    ensures Bijection(m)
  {}

  lemma {:induction false} RescheduleInv(l: Loop, now: int)
    requires Inv(l)
    ensures Inv(Reschedule(l, now)) && Reschedule(l, now).batch == l.batch
    decreases |l.collected|
  {
    hide Inv;
    if l.collected == [] {
    } else {
      RescheduleOneInv(l, now);
      RescheduleInv(RescheduleOne(l, now), now);
    }
  }

  lemma {:induction false} IndexedIdsAreOld(l: Loop)
    requires Bijection(l) && Fresh(l)
    ensures forall id :: id in l.byId ==> id < l.nextId
  {
    forall id | id in l.byId ensures id < l.nextId {
      var n :| n in l.byExpiry && n.entry.id == id;
    }
  }

  lemma {:induction false} AddInv(l: Loop, e: Event)
    requires Inv(l) && e.AddTimer?
    ensures Inv(Apply(l, e))
  {
    hide Ordered, Bijection, Emplace;
    var m := l.(nextId := l.nextId + 1);
    IndexedIdsAreOld(l);
    SameIndex(l, m);
    EmplaceInv(m, e.now + e.delay, Entry(l.nextId, e.callback, e.period));
  }

  lemma {:induction false} RunCallbackInv(l: Loop)
    requires Inv(l) && l.batch != []
    ensures Inv(Apply(l, RunCallback))
  {
    hide Ordered;
    assert forall f :: f in l.batch[1..] ==> f in l.batch;
    SameIndex(l, Apply(l, RunCallback));
  }

  lemma {:induction false} StepInv(l: Loop, e: Event)
    requires Inv(l) && Enabled(l, e)
    ensures Inv(Apply(l, e))
  {
    hide Inv;
    match e
    case AddTimer(_, _, _, _) => AddInv(l, e);
    case Cancel(id) => if id in l.byId { CancelInv(l, id); }
    case BeginPass(now) =>
      CollectInv(l, now);
      RescheduleInv(Collect(l, now), now);
    case RunCallback => RunCallbackInv(l);
  }

  lemma {:induction false} StartInv()
    ensures Inv(Start())
  {}

  predicate IsRun(l: Loop, es: seq<Event>)
    decreases |es|
  {
    es == [] || (Enabled(l, es[0]) && IsRun(Apply(l, es[0]), es[1..]))
  }

  function Exec(l: Loop, es: seq<Event>): Loop
    requires IsRun(l, es)
    decreases |es|
  {
    if es == [] then l else Exec(Apply(l, es[0]), es[1..])
  }

  /** The timers whose callbacks a run executes, in order. */
  function Ran(l: Loop, es: seq<Event>): seq<Entry>
    requires IsRun(l, es)
    decreases |es|
  {
    if es == [] then []
    else (if es[0].RunCallback? then [l.batch[0]] else []) + Ran(Apply(l, es[0]), es[1..])
  }

  lemma {:induction false} RunInv(l: Loop, es: seq<Event>)
    requires Inv(l) && IsRun(l, es)
    ensures Inv(Exec(l, es))
    decreases |es|
  {
    hide Inv;
    if es == [] {
    } else {
      StepInv(l, es[0]);
      RunInv(Apply(l, es[0]), es[1..]);
    }
  }

  /** The multimap and the index stay in bijection, and the multimap in order, in every run. */
  lemma {:induction false} IndexMatchesMultimap(es: seq<Event>)
    requires IsRun(Start(), es)
    ensures Bijection(Exec(Start(), es)) && Ordered(Exec(Start(), es).byExpiry)
  {
    StartInv();
    RunInv(Start(), es);
  }

  lemma {:induction false} ExpiredIsPrefix(ns: seq<Node>, now: int)
    requires Ordered(ns)
    ensures forall i :: 0 <= i < |ns| ==> (ns[i].expiry <= now <==> i < Expired(ns, now))
  {
    if ns != [] && ns[0].expiry <= now {
      HeadAndTail(ns);
      ExpiredIsPrefix(ns[1..], now);
      forall i | 0 <= i < |ns| ensures ns[i].expiry <= now <==> i < Expired(ns, now) {
        if i > 0 { assert ns[i] == ns[1..][i - 1]; }
      }
    } else if ns != [] {
      forall i | 0 < i < |ns| ensures ns[i].expiry > now { assert Before(ns[0], ns[i]); }
    }
  }

  predicate SamePass(es: seq<Event>) { forall i :: 0 <= i < |es| ==> !es[i].BeginPass? }

  lemma {:induction false} BatchRunsInOrder(l: Loop, es: seq<Event>)
    requires IsRun(l, es) && SamePass(es)
    ensures Ran(l, es) + Exec(l, es).batch == l.batch
    decreases |es|
  {
    if es == [] {
    } else {
      assert forall i :: 0 <= i < |es[1..]| ==> es[1..][i] == es[i + 1];
      BatchRunsInOrder(Apply(l, es[0]), es[1..]);
      if es[0].RunCallback? { assert l.batch == [l.batch[0]] + l.batch[1..]; }
    }
  }

  /**
   A pass that begins at `now` runs, in the order of expiry and then of insertion, exactly the
   callbacks of the timers expired when it began; whatever timers the callbacks add or cancel
   meanwhile changes nothing of that.
   */
  lemma {:induction false} PassRunsTheExpired(before: seq<Event>, now: int, es: seq<Event>)
    requires IsRun(Start(), before) && Enabled(Exec(Start(), before), BeginPass(now))
    requires IsRun(Apply(Exec(Start(), before), BeginPass(now)), es) && SamePass(es)
    ensures var l := Exec(Start(), before);
            var k := Expired(l.byExpiry, now);
            && (forall i :: 0 <= i < |l.byExpiry| ==> (l.byExpiry[i].expiry <= now <==> i < k))
            && Ran(Apply(l, BeginPass(now)), es) + Exec(Apply(l, BeginPass(now)), es).batch == Callbacks(l.byExpiry[..k])
  {
    hide Bijection, Fresh, InTransit;
    var l := Exec(Start(), before);
    StartInv();
    RunInv(Start(), before);
    ExpiredIsPrefix(l.byExpiry, now);
    CollectInv(l, now);
    CollectBatch(l, now);
    RescheduleInv(Collect(l, now), now);
    BatchRunsInOrder(Apply(l, BeginPass(now)), es);
  }

  /** A timer waits for `expiry`. */
  ghost predicate Pending(l: Loop, expiry: int, e: Entry) {
    exists n :: n in l.byExpiry && n.expiry == expiry && n.entry == e
  }

  /** A timer has expired by `now`. */
  ghost predicate Due(l: Loop, now: int, e: Entry) {
    exists n :: n in l.byExpiry && n.expiry <= now && n.entry == e
  }

  lemma {:induction false} CollectMembers(l: Loop, now: int)
    requires Ordered(l.byExpiry)
    ensures forall n :: n in Collect(l, now).byExpiry <==> n in l.byExpiry && n.expiry > now
    ensures forall e :: e in Collect(l, now).collected <==> e in l.collected || (e.period > 0 && Due(l, now, e))
    decreases |l.byExpiry|
  {
    if l.byExpiry != [] && l.byExpiry[0].expiry <= now {
      HeadAndTail(l.byExpiry);
      CollectMembers(CollectOne(l), now);
      DueSplits(l, now);
    } else {
      ExpiredIsPrefix(l.byExpiry, now);
    }
  }

  lemma {:induction false} DueSplits(l: Loop, now: int)
    requires l.byExpiry != [] && l.byExpiry[0].expiry <= now
    ensures forall e :: Due(l, now, e) <==> e == l.byExpiry[0].entry || Due(CollectOne(l), now, e)
  {
    var n, l' := l.byExpiry[0], CollectOne(l);
    assert l.byExpiry == [n] + l'.byExpiry;
    assert n in l.byExpiry;
    forall e | Due(l', now, e) ensures Due(l, now, e) {
      var m :| m in l'.byExpiry && m.expiry <= now && m.entry == e;
      assert m in l.byExpiry;
    }
  }

  lemma {:induction false} RescheduleMembers(l: Loop, now: int, expiry: int, e: Entry)
    ensures Pending(Reschedule(l, now), expiry, e) <==>
              Pending(l, expiry, e) || (e in l.collected && expiry == now + e.period)
    decreases |l.collected|
  {
    if l.collected == [] {
    } else {
      var x, l' := l.collected[0], RescheduleOne(l, now);
      var n := Node(now + x.period, l.nextSerial, x);
      RescheduleMembers(l', now, expiry, e);
      InsertMembers(l.byExpiry, n);
      assert l.collected == [x] + l'.collected;
      assert n in l'.byExpiry;
      if Pending(l, expiry, e) {
        var m :| m in l.byExpiry && m.expiry == expiry && m.entry == e;
        assert m in l'.byExpiry;
      }
    }
  }

  /** Adding a timer makes it pending under a fresh id for the clock plus the delay, and changes nothing else. */
  lemma {:induction false} PendingAfterAdd(l: Loop, e: Event, expiry: int, x: Entry)
    requires e.AddTimer?
    ensures Pending(Apply(l, e), expiry, x) <==>
              || Pending(l, expiry, x)
              || (expiry == e.now + e.delay && x == Entry(l.nextId, e.callback, e.period))
    ensures Apply(l, e).nextId == l.nextId + 1 && Apply(l, e).batch == l.batch
  {
    var n := Node(e.now + e.delay, l.nextSerial, Entry(l.nextId, e.callback, e.period));
    InsertMembers(l.byExpiry, n);
    assert n in Apply(l, e).byExpiry;
    if Pending(l, expiry, x) {
      var m :| m in l.byExpiry && m.expiry == expiry && m.entry == x;
      assert m in Apply(l, e).byExpiry;
    }
  }

  /** Cancelling takes away exactly the pending timer with that id. */
  lemma {:induction false} PendingAfterCancel(l: Loop, id: nat, expiry: int, x: Entry)
    requires Inv(l)
    ensures Pending(Apply(l, Cancel(id)), expiry, x) <==> Pending(l, expiry, x) && x.id != id
  {
    hide Ordered, Fresh, InTransit;
    if id in l.byId { EraseMembers(l.byExpiry, l.byId[id]); }
    if Pending(l, expiry, x) && x.id != id {
      var m :| m in l.byExpiry && m.expiry == expiry && m.entry == x;
      if id in l.byId { var c :| c in l.byExpiry && c.entry.id == id; }
      assert m in Apply(l, Cancel(id)).byExpiry;
    }
  }

  /**
   A pass keeps every timer that has not expired, puts each expired periodic one back for one period
   from now, and drops the expired one-shots; nothing else is pending afterwards.
   */
  lemma {:induction false} PendingAfterPass(before: seq<Event>, now: int, expiry: int, e: Entry)
    requires IsRun(Start(), before) && Enabled(Exec(Start(), before), BeginPass(now))
    ensures var l := Exec(Start(), before);
            Pending(Apply(l, BeginPass(now)), expiry, e) <==>
              || (Pending(l, expiry, e) && expiry > now)
              || (e.period > 0 && expiry == now + e.period && Due(l, now, e))
  {
    hide Bijection, Fresh, InTransit;
    var l := Exec(Start(), before);
    StartInv();
    RunInv(Start(), before);
    CollectMembers(l, now);
    RescheduleMembers(Collect(l, now), now, expiry, e);
  }

  // Cancellation

  predicate RunsTimer(ran: seq<Entry>, id: nat) { exists i :: 0 <= i < |ran| && ran[i].id == id }

  /** A timer that is in no container any more. */
  ghost predicate Gone(l: Loop, id: nat) {
    && id < l.nextId && id in l.cancelled
    && (forall e :: e in l.batch ==> e.id != id)
  }

  lemma {:induction false} NodesNotCancelled(l: Loop, ns: seq<Node>, k: nat, id: nat)
    requires Inv(l) && id in l.cancelled && k <= |ns| && (forall n :: n in ns ==> n in l.byExpiry)
    ensures forall e :: e in Callbacks(ns[..k]) ==> e.id != id
    decreases k
  {
    if k == 0 {
    } else {
      assert ns[0] in ns;
      var rest := ns[1..];
      assert forall n :: n in rest ==> n in ns;
      assert ns[..k][1..] == rest[..k - 1];
      NodesNotCancelled(l, rest, k - 1, id);
    }
  }

  lemma {:induction false} CollectKeeps(l: Loop, now: int)
    ensures Collect(l, now).cancelled == l.cancelled && Collect(l, now).nextId == l.nextId
    decreases |l.byExpiry|
  {
    if l.byExpiry != [] && l.byExpiry[0].expiry <= now { CollectKeeps(CollectOne(l), now); }
  }

  lemma {:induction false} RescheduleKeeps(l: Loop, now: int)
    ensures Reschedule(l, now).cancelled == l.cancelled && Reschedule(l, now).nextId == l.nextId
    decreases |l.collected|
  {
    if l.collected == [] {
    } else {
      RescheduleKeeps(RescheduleOne(l, now), now);
    }
  }

  lemma {:induction false} GoneStays(l: Loop, e: Event, id: nat)
    requires Inv(l) && Enabled(l, e) && Gone(l, id)
    ensures Gone(Apply(l, e), id) && (e.RunCallback? ==> l.batch[0].id != id)
  {
    if e.BeginPass? {
      CollectInv(l, e.now);
      CollectBatch(l, e.now);
      CollectKeeps(l, e.now);
      NodesNotCancelled(l, l.byExpiry, Expired(l.byExpiry, e.now), id);
      RescheduleInv(Collect(l, e.now), e.now);
      RescheduleKeeps(Collect(l, e.now), e.now);
    } else if e.RunCallback? {
      assert l.batch[0] in l.batch;
      assert forall f :: f in l.batch[1..] ==> f in l.batch;
    }
  }

  lemma {:induction false} GoneNeverRuns(l: Loop, es: seq<Event>, id: nat)
    requires Inv(l) && IsRun(l, es) && Gone(l, id)
    ensures !RunsTimer(Ran(l, es), id)
    decreases |es|
  {
    hide Inv;
    if es == [] {
    } else {
      StepInv(l, es[0]);
      GoneStays(l, es[0], id);
      GoneNeverRuns(Apply(l, es[0]), es[1..], id);
      var rest := Ran(Apply(l, es[0]), es[1..]);
      forall i | 0 <= i < |Ran(l, es)| ensures Ran(l, es)[i].id != id {
        if es[0].RunCallback? && i > 0 { assert Ran(l, es)[i] == rest[i - 1]; }
        else if !es[0].RunCallback? { assert Ran(l, es)[i] == rest[i]; }
      }
    }
  }

  function Repeat(n: nat): seq<Event> { if n == 0 then [] else [RunCallback] + Repeat(n - 1) }

  lemma {:induction false} BatchedRuns(l: Loop, i: nat)
    requires i < |l.batch|
    ensures IsRun(l, Repeat(i + 1)) && RunsTimer(Ran(l, Repeat(i + 1)), l.batch[i].id)
    decreases i
  {
    var es := Repeat(i + 1);
    assert es[1..] == Repeat(i);
    var l' := Apply(l, RunCallback);
    if i == 0 {
      assert IsRun(l', es[1..]);
      assert Ran(l, es)[0] == l.batch[0];
    } else {
      BatchedRuns(l', i - 1);
      var ran := Ran(l', Repeat(i));
      var j :| 0 <= j < |ran| && ran[j].id == l'.batch[i - 1].id;
      assert Ran(l, es)[j + 1] == ran[j];
    }
  }

  ghost predicate Collected(l: Loop, id: nat) { exists e :: e in l.batch && e.id == id }

  ghost predicate NeverRunsAgain(l: Loop, id: nat) { forall es :: IsRun(l, es) ==> !RunsTimer(Ran(l, es), id) }

  lemma {:induction false} CancelMakesGone(l: Loop, id: nat)
    requires Inv(l) && id in l.byId && !Collected(l, id)
    ensures Gone(Apply(l, Cancel(id)), id)
  {
    hide Ordered, InTransit;
    var n :| n in l.byExpiry && n.entry.id == id;
  }

  lemma {:induction false} CollectedRunsAnyway(l: Loop, id: nat)
    requires id in l.byId && Collected(l, id)
    ensures !NeverRunsAgain(Apply(l, Cancel(id)), id)
  {
    var e :| e in l.batch && e.id == id;
    var i :| 0 <= i < |l.batch| && l.batch[i] == e;
    BatchedRuns(Apply(l, Cancel(id)), i);
  }

  /**
   A cancelTimer(id) that returns true prevents all later runs of the timer if and only if the timer is
   not among the callbacks the current pass has already collected.
   */
  lemma {:induction false} CancelPreventsUncollectedRuns(before: seq<Event>, id: nat)
    requires IsRun(Start(), before) && id in Exec(Start(), before).byId
    ensures Collected(Exec(Start(), before), id) <==> !NeverRunsAgain(Apply(Exec(Start(), before), Cancel(id)), id)
  {
    hide Inv, Gone, Collected;
    var l := Exec(Start(), before);
    var l' := Apply(l, Cancel(id));
    StartInv();
    RunInv(Start(), before);
    StepInv(l, Cancel(id));
    if Collected(l, id) {
      CollectedRunsAnyway(l, id);
    } else {
      CancelMakesGone(l, id);
      forall es | IsRun(l', es) ensures !RunsTimer(Ran(l', es), id) { GoneNeverRuns(l', es, id); }
    }
  }

  lemma {:induction false} Extend(l: Loop, es: seq<Event>, e: Event)
    requires IsRun(l, es) && Enabled(Exec(l, es), e)
    ensures IsRun(l, es + [e]) && Exec(l, es + [e]) == Apply(Exec(l, es), e)
    decreases |es|
  {
    if es == [] {
      assert es + [e] == [e] && [e][1..] == [];
    } else {
      assert (es + [e])[1..] == es[1..] + [e];
      Extend(Apply(l, es[0]), es[1..], e);
    }
  }

  /** A one-shot and a periodic timer that come due together, in the callback of the first. */
  function TwoDue(now: int, period: int): seq<Event> {
    [AddTimer(now, period, true, 0)] + [AddTimer(now, period, true, period)] + [BeginPass(now + period)] + [RunCallback]
  }

  /** The failing case occurs: a callback cancels in vain a periodic timer that is due in the same pass. */
  lemma {:induction false} CancelFromOtherCallback(now: int, period: int)
    requires period > 0
    ensures IsRun(Start(), TwoDue(now, period))
    ensures var l := Exec(Start(), TwoDue(now, period));
            2 in l.byId && Collected(l, 2) && !NeverRunsAgain(Apply(l, Cancel(2)), 2)
  {
    hide NeverRunsAgain, IsRun, Exec;
    var due, x, y := now + period, Entry(1, true, 0), Entry(2, true, period);
    var e1, e2, e3 := AddTimer(now, period, true, 0), AddTimer(now, period, true, period), BeginPass(due);
    var l0 := Start();
    var l1 := l0.(byExpiry := [Node(due, 0, x)], byId := map[1 := 0], nextId := 2, nextSerial := 1);
    assert Apply(l0, e1) == l1;
    NoSteps(l0);
    Extend(l0, [], e1);
    assert [] + [e1] == [e1];
    InsertBehind(Node(due, 0, x), Node(due, 1, y));
    var l2 := l1.(byExpiry := [Node(due, 0, x), Node(due, 1, y)], byId := map[1 := 0, 2 := 1], nextId := 3, nextSerial := 2);
    assert Apply(l1, e2) == l2;
    Extend(l0, [e1], e2);
    TwoDuePass(l2, due, x, y);
    Extend(l0, [e1] + [e2], e3);
    Extend(l0, [e1] + [e2] + [e3], RunCallback);
    var l4 := Apply(Apply(l2, e3), RunCallback);
    assert l4.batch == [y] && y in l4.batch;
    CollectedRunsAnyway(l4, 2);
  }

  lemma {:induction false} InsertBehind(m: Node, n: Node)
    requires m.expiry <= n.expiry
    ensures Insert([m], n) == [m, n]
  {
    assert [m][1..] == [] && Insert([], n) == [n];
  }

  lemma {:induction false} NoSteps(l: Loop)
    ensures IsRun(l, []) && Exec(l, []) == l
  {}

  lemma {:induction false} TwoDuePass(l: Loop, due: int, x: Entry, y: Entry)
    requires l.byExpiry == [Node(due, 0, x), Node(due, 1, y)] && l.collected == [] && l.batch == []
    requires x.callback && y.callback && x.period <= 0 < y.period
    ensures Apply(l, BeginPass(due)).batch == [x, y] && y.id in Apply(l, BeginPass(due)).byId
  {
    var c1 := CollectOne(l);
    assert c1.byExpiry == [Node(due, 1, y)] && c1.collected == [] && c1.batch == [x];
    var c2 := CollectOne(c1);
    assert c2.byExpiry == [] && c2.collected == [y] && c2.batch == [x, y];
    assert Collect(c2, due) == c2 && Collect(c1, due) == c2 && Collect(l, due) == c2;
    var d := RescheduleOne(c2, due);
    assert d.collected == [] && Reschedule(d, due) == d && Reschedule(c2, due) == d;
  }

  // A callback that cancels its own timer

  ghost predicate DistinctIds(es: seq<Entry>) { forall i, j :: 0 <= i < j < |es| ==> es[i].id != es[j].id }

  lemma {:induction false} CallbacksFromNodes(ns: seq<Node>, e: Entry)
    requires e in Callbacks(ns)
    ensures exists n :: n in ns && n.entry == e
  {
    if e in OwnCallback(ns[0]) {
      assert ns[0] in ns;
    } else {
      CallbacksFromNodes(ns[1..], e);
      var n :| n in ns[1..] && n.entry == e;
      assert n in ns;
    }
  }

  lemma {:induction false} CallbacksDistinct(ns: seq<Node>)
    requires forall i, j :: 0 <= i < j < |ns| ==> ns[i].entry.id != ns[j].entry.id
    ensures DistinctIds(Callbacks(ns))
  {
    if ns == [] {
    } else {
      var rest := ns[1..];
      assert forall i :: 0 <= i < |rest| ==> rest[i] == ns[i + 1];
      CallbacksDistinct(rest);
      forall e | e in Callbacks(rest) ensures e.id != ns[0].entry.id {
        CallbacksFromNodes(rest, e);
        var n :| n in rest && n.entry == e;
        var i :| 0 <= i < |rest| && rest[i] == n;
        assert ns[i + 1] == n;
      }
    }
  }

  lemma {:induction false} NodesHaveDistinctIds(l: Loop)
    requires Ordered(l.byExpiry) && Bijection(l)
    ensures forall i, j :: 0 <= i < j < |l.byExpiry| ==> l.byExpiry[i].entry.id != l.byExpiry[j].entry.id
  {
    forall i, j | 0 <= i < j < |l.byExpiry| ensures l.byExpiry[i].entry.id != l.byExpiry[j].entry.id {
      assert Before(l.byExpiry[i], l.byExpiry[j]);
      assert l.byExpiry[i] in l.byExpiry && l.byExpiry[j] in l.byExpiry;
    }
  }

  lemma {:induction false} PassBatch(l: Loop, now: int)
    requires Inv(l) && Enabled(l, BeginPass(now))
    ensures DistinctIds(Apply(l, BeginPass(now)).batch)
  {
    hide Bijection, Fresh, InTransit;
    var ns := l.byExpiry[..Expired(l.byExpiry, now)];
    NodesHaveDistinctIds(l);
    CallbacksDistinct(ns);
    CollectBatch(l, now);
    assert l.batch + Callbacks(ns) == Callbacks(ns);
    CollectInv(l, now);
    RescheduleInv(Collect(l, now), now);
  }

  /** No timer is collected twice by a pass. */
  lemma {:induction false} BatchIsDistinct(l: Loop, es: seq<Event>)
    requires Inv(l) && DistinctIds(l.batch) && IsRun(l, es)
    ensures DistinctIds(Exec(l, es).batch)
    decreases |es|
  {
    hide Inv;
    if es == [] {
    } else {
      StepInv(l, es[0]);
      if es[0].BeginPass? { PassBatch(l, es[0].now); }
      BatchIsDistinct(Apply(l, es[0]), es[1..]);
    }
  }

  /** A callback that cancels its own timer is always obeyed: the timer never runs again. */
  lemma {:induction false} CancelFromOwnCallback(before: seq<Event>)
    requires IsRun(Start(), before) && Exec(Start(), before).batch != []
    requires Exec(Start(), before).batch[0].id in Exec(Start(), before).byId
    ensures var l := Exec(Start(), before);
            NeverRunsAgain(Apply(Apply(l, RunCallback), Cancel(l.batch[0].id)), l.batch[0].id)
  {
    hide NeverRunsAgain, IsRun, Exec, Inv;
    var l := Exec(Start(), before);
    StartInv();
    BatchIsDistinct(Start(), before);
    Extend(Start(), before, RunCallback);
    assert forall i :: 0 <= i < |l.batch| - 1 ==> l.batch[1..][i] == l.batch[i + 1];
    assert !Collected(Apply(l, RunCallback), l.batch[0].id);
    CancelPreventsUncollectedRuns(before + [RunCallback], l.batch[0].id);
  }

  lemma {:induction false} OneShotNotCollected(l: Loop, n: Node)
    requires Inv(l) && n in l.byExpiry && n.entry.period <= 0
    ensures n.entry.id in l.byId && !Collected(l, n.entry.id)
  {}

  /** In particular a one-shot timer whose cancellation returned true never runs. */
  lemma {:induction false} CancelledOneShotNeverRuns(before: seq<Event>, n: Node)
    requires IsRun(Start(), before) && n in Exec(Start(), before).byExpiry && n.entry.period <= 0
    ensures n.entry.id in Exec(Start(), before).byId
    ensures NeverRunsAgain(Apply(Exec(Start(), before), Cancel(n.entry.id)), n.entry.id)
  {
    hide Inv;
    StartInv();
    RunInv(Start(), before);
    OneShotNotCollected(Exec(Start(), before), n);
    CancelPreventsUncollectedRuns(before, n.entry.id);
  }

  /** The object itself: the loop's two timer containers and the vectors of a pass in progress. */
  class EpollLoop {
    var timersByExpiry: seq<Node>
    var timerById: map<nat, nat>
    var nextTimerId: nat
    var nextSerial: nat
    var toReschedule: seq<Entry>
    var batch: seq<Entry>
    ghost var cancelled: set<nat>

    ghost function View(): Loop
      reads this
    {
      Loop(timersByExpiry, timerById, nextTimerId, nextSerial, toReschedule, batch, cancelled)
    }

    constructor ()
      ensures View() == Start() && Inv(View())
    {
      timersByExpiry, timerById, nextTimerId, nextSerial, toReschedule, batch := [], map[], 1, 0, [], [];
      cancelled := {};
    }

    method EmplaceTimer(expiry: int, entry: Entry)
      modifies this
      ensures View() == Emplace(old(View()), expiry, entry)
    {
      timersByExpiry := Insert(timersByExpiry, Node(expiry, nextSerial, entry));
      timerById := timerById[entry.id := nextSerial];
      nextSerial := nextSerial + 1;
    }

    method AddTimer(now: int, duration: int, callback: bool) returns (id: nat)
      requires Inv(View())
      modifies this
      ensures View() == Apply(old(View()), Event.AddTimer(now, duration, callback, 0)) && Inv(View())
      ensures id == old(nextTimerId) && id in timerById
    {
      hide Inv;
      StepInv(View(), Event.AddTimer(now, duration, callback, 0));
      id := nextTimerId;
      nextTimerId := nextTimerId + 1;
      EmplaceTimer(now + duration, Entry(id, callback, 0));
    }

    method AddPeriodicTimer(now: int, period: int, callback: bool) returns (id: nat)
      requires Inv(View())
      modifies this
      ensures View() == Apply(old(View()), Event.AddTimer(now, period, callback, period)) && Inv(View())
      ensures id == old(nextTimerId) && id in timerById
    {
      hide Inv;
      StepInv(View(), Event.AddTimer(now, period, callback, period));
      id := nextTimerId;
      nextTimerId := nextTimerId + 1;
      EmplaceTimer(now + period, Entry(id, callback, period));
    }

    method CancelTimer(id: nat) returns (ok: bool)
      requires Inv(View())
      modifies this
      ensures View() == Apply(old(View()), Event.Cancel(id)) && Inv(View())
      ensures ok <==> id in old(timerById)
    {
      hide Inv;
      StepInv(View(), Event.Cancel(id));
      if id !in timerById { return false; }
      timersByExpiry := Erase(timersByExpiry, timerById[id]);
      timerById := timerById - {id};
      cancelled := cancelled + {id};
      return true;
    }

    /** processTimers up to its last loop: collects the expired timers and reschedules the periodic ones. */
    method BeginPass(now: int)
      requires Inv(View()) && Enabled(View(), Event.BeginPass(now))
      modifies this
      ensures View() == Apply(old(View()), Event.BeginPass(now)) && Inv(View())
    {
      hide Inv;
      StepInv(View(), Event.BeginPass(now));
      CollectExpired(now);
      PutBackPeriodic(now);
    }

    method CollectExpired(now: int)
      modifies this
      ensures View() == Collect(old(View()), now)
    {
      while timersByExpiry != [] && timersByExpiry[0].expiry <= now
        invariant Collect(View(), now) == Collect(old(View()), now)
        decreases |timersByExpiry|
      {
        var entry := timersByExpiry[0].entry;
        timerById := timerById - {entry.id};
        if entry.period > 0 { toReschedule := toReschedule + [entry]; }
        if entry.callback { batch := batch + [entry]; }
        timersByExpiry := timersByExpiry[1..];
      }
    }

    method PutBackPeriodic(now: int)
      modifies this
      ensures View() == Reschedule(old(View()), now)
    {
      while toReschedule != []
        invariant Reschedule(View(), now) == Reschedule(old(View()), now)
        decreases |toReschedule|
      {
        var entry := toReschedule[0];
        toReschedule := toReschedule[1..];
        EmplaceTimer(now + entry.period, entry);
      }
    }

    /** One turn of the last loop of processTimers; the callback itself may add and cancel timers. */
    method RunCallback() returns (entry: Entry)
      requires Inv(View()) && batch != []
      modifies this
      ensures View() == Apply(old(View()), Event.RunCallback) && Inv(View())
      ensures entry == old(batch)[0]
    {
      hide Inv;
      StepInv(View(), Event.RunCallback);
      entry := batch[0];
      batch := batch[1..];
    }
  }
}
