/**
 Actor links, monitors and the exit cascade (include/pman/async/actor.hpp).

 A task started by notifyExit runs at once, inside the caller, so the death of one actor kills its
 linked actors depth first through handleExitSignal, handleCrash and notifyExit again, while
 the registry is being emptied.  Exit signals are handled the default way.
 */
module Actors {
  import opened Wrappers

  type Pid = nat

  const INVALID_PID: Pid := 0

  datatype ExitReason = Normal | Killed | Exception | Linked

  /** What the registry's actor object remembers about others. */
  datatype Ties = Ties(links: set<Pid>, monitors: set<Pid>)

  type Graph = map<Pid, Ties>

  datatype Down = Down(pid: Pid, monitor: Pid, reason: ExitReason)

  // Reachability over the links of live actors

  ghost predicate IsPath(g: Graph, path: seq<Pid>) {
    && path != []
    && (forall i :: 0 <= i < |path| ==> path[i] in g)
    && (forall i, j :: 0 <= i < |path| - 1 && j == i + 1 ==> path[j] in g[path[i]].links)
  }

  ghost predicate Reaches(g: Graph, p: Pid, q: Pid) {
    exists path :: IsPath(g, path) && path[0] == p && path[|path| - 1] == q
  }

  ghost predicate Symmetric(g: Graph) {
    forall a, b :: a in g && b in g ==> (b in g[a].links <==> a in g[b].links)
  }

  ghost predicate SubGraph(h: Graph, g: Graph) { forall q :: q in h ==> q in g && h[q] == g[q] }

  lemma {:induction false} ReachesSelf(g: Graph, p: Pid)
    requires p in g
    ensures Reaches(g, p, p)
  {
    assert IsPath(g, [p]);
  }

  /** A path of a smaller graph, entered over one more link, is a path of the larger one. */
  lemma {:induction false} ReachesThrough(g: Graph, h: Graph, p: Pid, l: Pid, q: Pid)
    requires SubGraph(h, g) && p in g && l in g[p].links && Reaches(h, l, q)
    ensures Reaches(g, p, q)
  {
    var path :| IsPath(h, path) && path[0] == l && path[|path| - 1] == q;
    var longer := [p] + path;
    assert forall i :: 1 <= i < |longer| ==> longer[i] == path[i - 1];
    assert IsPath(g, longer);
    assert longer[0] == p && longer[|longer| - 1] == q;
  }

  /** Nothing outside a link-closed set is reachable from inside it. */
  lemma {:induction false} ClosedContainsPath(g: Graph, dead: set<Pid>, path: seq<Pid>)
    requires IsPath(g, path) && path[0] in dead
    requires forall r :: r in dead && r in g ==> forall l :: l in g[r].links && l in g ==> l in dead
    ensures path[|path| - 1] in dead
  {
    if |path| <= 1 {
    } else {
      var rest := path[1..];
      assert forall i :: 0 <= i < |rest| ==> rest[i] == path[i + 1];
      assert path[1] in g[path[0]].links;
      ClosedContainsPath(g, dead, rest);
    }
  }

  // What one exit does

  /** How many DOWN messages about `pid` were sent to `monitor`. */
  function Sent(ds: seq<Down>, pid: Pid, monitor: Pid): nat {
    if ds == [] then 0
    else
      var d := ds[|ds| - 1];
      Sent(ds[..|ds| - 1], pid, monitor) + (if d.pid == pid && d.monitor == monitor then 1 else 0)
  }

  lemma {:induction false} SentConcat(a: seq<Down>, b: seq<Down>, pid: Pid, monitor: Pid)
    ensures Sent(a + b, pid, monitor) == Sent(a, pid, monitor) + Sent(b, pid, monitor)
  {
    if b == [] {
      assert a + b == a;
    } else {
      var k := |b| - 1;
      assert (a + b)[..|a + b| - 1] == a + b[..k];
      SentConcat(a, b[..k], pid, monitor);
    }
  }

  predicate Died(g: Graph, g': Graph, r: Pid) { r in g && r !in g' }

  predicate Watched(g: Graph, r: Pid, w: Pid) { r in g && w in g[r].monitors }

  /** Every survivor has been told once about each actor that died and that it monitors. */
  ghost predicate Told(g: Graph, g': Graph, ds: seq<Down>) {
    forall w, r :: w in g' ==> Sent(ds, r, w) == if Died(g, g', r) && Watched(g, r, w) then 1 else 0
  }

  /** Exactly the dead were processed, each once. */
  ghost predicate ProcessedOnce(g: Graph, g': Graph, exits: seq<Pid>) {
    && (forall r :: r in exits <==> Died(g, g', r))
    && (forall i, j :: 0 <= i < j < |exits| ==> exits[i] != exits[j])
  }

  /** The live actors went from g to g' while, from p, the links in `links` have been followed. */
  ghost predicate Spread(g: Graph, g': Graph, p: Pid, links: set<Pid>) {
    && SubGraph(g', g)
    && (forall r :: Died(g, g', r) ==> Reaches(g, p, r))
    && (forall r, l :: Died(g, g', r) && r != p && l in g[r].links ==> l !in g')
    && (forall l :: l in links ==> l !in g')
  }

  /** The complete effect of notifyExit(p). */
  ghost predicate Exited(g: Graph, g': Graph, p: Pid, ds: seq<Down>, exits: seq<Pid>) {
    && (p in g ==> Spread(g, g', p, g[p].links))
    && (p !in g ==> g' == g)
    && p !in g'
    && Told(g, g', ds)
    && ProcessedOnce(g, g', exits)
  }

  /** The effect of the first part of notifyExit(p): p is gone, `links` have been followed. */
  ghost predicate Partial(g: Graph, a: Graph, p: Pid, links: set<Pid>, ds: seq<Down>, exits: seq<Pid>) {
    && p in g && p !in a
    && Spread(g, a, p, links)
    && Told(g - {p}, a, ds)
    && ProcessedOnce(g, a, exits)
  }

  lemma {:induction false} PartialStart(g: Graph, p: Pid)
    requires p in g
    ensures Partial(g, g - {p}, p, {}, [], [p])
  {
    ReachesSelf(g, p);
  }

  lemma {:induction false} ToldChain(g: Graph, a: Graph, b: Graph, ds: seq<Down>, es: seq<Down>)
    requires SubGraph(a, g) && SubGraph(b, a) && Told(g, a, ds) && Told(a, b, es)
    ensures Told(g, b, ds + es)
  {
    forall w, r | w in b
      ensures Sent(ds + es, r, w) == if Died(g, b, r) && Watched(g, r, w) then 1 else 0
    {
      SentConcat(ds, es, r, w);
    }
  }

  lemma {:induction false} ProcessedChain(g: Graph, a: Graph, b: Graph, xs: seq<Pid>, ys: seq<Pid>)
    requires SubGraph(a, g) && SubGraph(b, a) && ProcessedOnce(g, a, xs) && ProcessedOnce(a, b, ys)
    ensures ProcessedOnce(g, b, xs + ys)
  {
    var all := xs + ys;
    forall i, j | 0 <= i < j < |all| ensures all[i] != all[j] {
      if i < |xs| <= j { assert Died(g, a, xs[i]) by { assert xs[i] in xs; } assert ys[j - |xs|] in ys; }
    }
  }

  lemma {:induction false} SpreadChain(g: Graph, a: Graph, b: Graph, p: Pid, links: set<Pid>, l: Pid)
    requires p in g && p !in a && Spread(g, a, p, links) && l in g[p].links && l in a
    requires Spread(a, b, l, a[l].links) && l !in b
    ensures Spread(g, b, p, links + {l})
  {
    forall r | Died(g, b, r) ensures Reaches(g, p, r) {
      if r in a { ReachesThrough(g, a, p, l, r); }
    }
  }

  /** Following one more link from p, with everything that its death drags along. */
  lemma {:induction false} PartialStep(g: Graph, a: Graph, b: Graph, p: Pid, links: set<Pid>, l: Pid,
                                       ds: seq<Down>, es: seq<Down>, xs: seq<Pid>, ys: seq<Pid>)
    requires Partial(g, a, p, links, ds, xs) && l in g[p].links
    requires Exited(a, b, l, es, ys)
    ensures Partial(g, b, p, links + {l}, ds + es, xs + ys)
  {
    ToldChain(g - {p}, a, b, ds, es);
    ProcessedChain(g, a, b, xs, ys);
    if l in a { SpreadChain(g, a, b, p, links, l); }
  }

  /** DOWN messages about p alone, to each live monitor in `told` once. */
  ghost predicate Announced(a: Graph, p: Pid, told: set<Pid>, ds: seq<Down>) {
    forall w, r :: w in a ==> Sent(ds, r, w) == if r == p && w in told then 1 else 0
  }

  lemma {:induction false} AnnounceOne(a: Graph, p: Pid, told: set<Pid>, ds: seq<Down>, m: Pid, reason: ExitReason)
    requires Announced(a, p, told, ds) && m !in told
    ensures Announced(a, p, told + {m}, ds + [Down(p, m, reason)])
  {
    var all := ds + [Down(p, m, reason)];
    assert all[..|all| - 1] == ds;
  }

  lemma {:induction false} PartialFinish(g: Graph, a: Graph, p: Pid, ds: seq<Down>, es: seq<Down>, exits: seq<Pid>)
    requires p in g && Partial(g, a, p, g[p].links, ds, exits) && Announced(a, p, g[p].monitors, es)
    ensures Exited(g, a, p, ds + es, exits)
  {
    forall w, r | w in a
      ensures Sent(ds + es, r, w) == if Died(g, a, r) && Watched(g, r, w) then 1 else 0
    {
      SentConcat(ds, es, r, w);
    }
  }

  /**
   The cascade kills exactly the live actors reachable from p over links, and nobody else.
   */
  lemma {:induction false} DeadAreTheReachable(g: Graph, g': Graph, p: Pid, ds: seq<Down>, exits: seq<Pid>)
    requires Exited(g, g', p, ds, exits)
    ensures forall q :: q in g ==> (q !in g' <==> Reaches(g, p, q))
  {
    if p in g {
      var dead := g.Keys - g'.Keys;
      forall q | q in g && Reaches(g, p, q) ensures q !in g' {
        var path :| IsPath(g, path) && path[0] == p && path[|path| - 1] == q;
        ClosedContainsPath(g, dead, path);
      }
    } else {
      forall q | q in g ensures !Reaches(g, p, q) {}
    }
  }

  /** With symmetric links, linked actors die together: no survivor was linked to a dead one. */
  lemma {:induction false} LinkedDieTogether(g: Graph, g': Graph, p: Pid, ds: seq<Down>, exits: seq<Pid>, a: Pid, b: Pid)
    requires Symmetric(g) && Exited(g, g', p, ds, exits) && a in g && b in g && b in g[a].links
    ensures a in g' <==> b in g'
  {
    if Died(g, g', a) && p == a { assert b in g[p].links; }
    if Died(g, g', b) && p == b { assert a in g[p].links; }
  }

  /** The exit of an actor without ties concerns nobody else. */
  lemma {:induction false} LonelyExit(g: Graph, g': Graph, p: Pid, ds: seq<Down>, exits: seq<Pid>)
    requires p in g && g[p] == Ties({}, {}) && Exited(g, g', p, ds, exits)
    ensures g' == g - {p} && exits == [p] && forall w, r :: w in g' ==> Sent(ds, r, w) == 0
  {
    forall q | q in g && Reaches(g, p, q) ensures q == p { LonelyReach(g, p, q); }
    assert g' == g - {p};
    assert p in exits;
    forall i | 0 <= i < |exits| ensures exits[i] == p { assert exits[i] in exits; }
    if |exits| > 1 { FirstTwoDiffer(exits); }
  }

  lemma {:induction false} LonelyReach(g: Graph, p: Pid, q: Pid)
    requires p in g && g[p].links == {} && Reaches(g, p, q)
    ensures q == p
  {
    var path :| IsPath(g, path) && path[0] == p && path[|path| - 1] == q;
    if |path| > 1 { FirstStep(g, path); }
  }

  lemma {:induction false} FirstStep(g: Graph, path: seq<Pid>)
    requires IsPath(g, path) && |path| > 1
    ensures path[1] in g[path[0]].links
  {}

  lemma {:induction false} FirstTwoDiffer(xs: seq<Pid>)
    requires |xs| > 1 && forall i, j :: 0 <= i < j < |xs| ==> xs[i] != xs[j]
    ensures xs[0] != xs[1]
  {}

  /** Each DOWN message is about an actor of g; only p's own carries another reason than Linked. */
  ghost predicate Reasoned(g: Graph, ds: seq<Down>, p: Pid, reason: ExitReason) {
    forall i :: 0 <= i < |ds| ==> ds[i].pid in g && ds[i].reason == if ds[i].pid == p then reason else Linked
  }

  lemma {:induction false} ReasonedChain(g: Graph, a: Graph, ds: seq<Down>, es: seq<Down>, p: Pid, l: Pid)
    requires SubGraph(a, g) && p !in g && Reasoned(g, ds, p, Linked) && Reasoned(a, es, l, Linked)
    ensures Reasoned(g, ds + es, p, Linked)
  {}

  lemma {:induction false} Assoc<T>(a: seq<T>, b: seq<T>, c: seq<T>)
    ensures a + b + c == a + (b + c)
  {}

  lemma {:induction false} OneFewer(links: set<Pid>, todo: set<Pid>, l: Pid)
    requires l in todo && todo <= links
    ensures links - (todo - {l}) == links - todo + {l}
  {}

  lemma {:induction false} StoppedChain(stopped: set<Pid>, g: set<Pid>, a: set<Pid>, b: set<Pid>)
    requires b <= a <= g
    ensures stopped + (g - a) + (a - b) == stopped + (g - b)
  {}

  ghost predicate WellLinked(g: Graph, nextPid: Pid) {
    && Symmetric(g)
    && (forall p :: p in g ==> INVALID_PID < p < nextPid)
    && (forall p, l :: p in g && l in g[p].links ==> l < nextPid)
  }

  lemma {:induction false} Smaller(a: set<Pid>, b: set<Pid>)
    requires a <= b
    ensures |a| <= |b|
  {
    assert b == a + (b - a);
  }

  function Watch(g: Graph, watcher: Pid, watched: Pid): Graph
    requires watched in g
  {
    g[watched := g[watched].(monitors := g[watched].monitors + {watcher})]
  }

  /** A watcher that outlives the actor it monitors is told exactly once; an actor that does not monitor, never. */
  lemma {:induction false} WatcherIsTold(g: Graph, g': Graph, p: Pid, ds: seq<Down>, exits: seq<Pid>, w: Pid, r: Pid)
    requires Exited(g, g', p, ds, exits) && w in g' && r in g
    ensures Sent(ds, r, w) == if r !in g' && w in g[r].monitors then 1 else 0
  {}

  /** The law of monitoring: whoever starts to watch a live actor is sent one DOWN by the exit that kills it. */
  lemma {:induction false} MonitoredDeathIsTold(g: Graph, g': Graph, p: Pid, ds: seq<Down>, exits: seq<Pid>, w: Pid, r: Pid)
    requires w in g && r in g && Exited(Watch(g, w, r), g', p, ds, exits) && w in g' && r !in g'
    ensures Sent(ds, r, w) == 1
  {
    WatcherIsTold(Watch(g, w, r), g', p, ds, exits, w, r);
  }

  /** The registry. */
  class ProcessRegistry {
    var nextPid: Pid
    var actors: map<Pid, Ties>
    var stopped: set<Pid>
    var downs: seq<Down>
    ghost var exits: seq<Pid>

    /** Links are symmetric among the living and only mention pids already given out. */
    ghost predicate Valid()
      reads this
    {
      nextPid > INVALID_PID && WellLinked(actors, nextPid)
    }

    constructor ()
      ensures Valid() && actors == map[] && downs == [] && exits == []
    {
      nextPid, actors, stopped, downs, exits := 1, map[], {}, [], [];
    }

    /** Registers a new actor and starts its body, which `ends` before its first suspension or not. */
    method Spawn(ends: Option<ExitReason>) returns (pid: Pid)
      requires Valid()
      modifies this
      ensures Valid() && pid == old(nextPid) && pid !in old(actors) && nextPid == old(nextPid) + 1
      ensures ends.None? ==> actors == old(actors)[pid := Ties({}, {})] && stopped == old(stopped)
      ensures ends.None? ==> downs == old(downs) && exits == old(exits)
      ensures ends.Some? ==> actors == old(actors) && stopped == old(stopped) + {pid} && exits == old(exits) + [pid]
      ensures ends.Some? ==> old(downs) <= downs && forall w, r :: w in actors ==> Sent(downs[|old(downs)|..], r, w) == 0
    {
      pid := nextPid;
      nextPid := nextPid + 1;
      actors := actors[pid := Ties({}, {})];
      if ends.Some? {
        ghost var g, downs0 := actors, downs;
        ghost var ds, xs := HandleCrash(pid, ends.value);
        LonelyExit(g, actors, pid, ds, xs);
        assert actors == old(actors);
        assert downs[|downs0|..] == ds;
      }
    }

    method Link(pid1: Pid, pid2: Pid)
      requires Valid()
      modifies this`actors
      ensures Valid() && actors.Keys == old(actors).Keys
      ensures forall p, q :: p in actors && q in actors ==>
                (q in actors[p].links <==>
                  q in old(actors)[p].links || (p == pid1 && q == pid2) || (p == pid2 && q == pid1))
      ensures forall p :: p in actors ==> actors[p].monitors == old(actors)[p].monitors
      ensures pid1 !in actors || pid2 !in actors ==> actors == old(actors)
    {
      if pid1 !in actors || pid2 !in actors { return; }
      actors := actors[pid1 := actors[pid1].(links := actors[pid1].links + {pid2})];
      actors := actors[pid2 := actors[pid2].(links := actors[pid2].links + {pid1})];
    }

    method Monitor(watcher: Pid, watched: Pid) returns (ref: Pid)
      requires Valid()
      modifies this`actors
      ensures Valid()
      ensures ref == if watched in old(actors) then watcher else INVALID_PID
      ensures actors == if watched in old(actors) then Watch(old(actors), watcher, watched) else old(actors)
      ensures actors.Keys == old(actors).Keys && forall p :: p in actors ==> actors[p].links == old(actors)[p].links
      ensures forall w, r :: Watched(actors, r, w) <==>
                Watched(old(actors), r, w) || (r == watched && w == watcher && watched in old(actors))
    {
      if watched !in actors { return INVALID_PID; }
      actors := actors[watched := actors[watched].(monitors := actors[watched].monitors + {watcher})];
      ref := watcher;
    }

    /**
     The exit of one actor, with the whole cascade it sets off.  It terminates because each exit that
     goes further has removed its own actor first.  `ds` and `xs` are the DOWN messages sent
     and the actors processed meanwhile.
     */
    method NotifyExit(pid: Pid, reason: ExitReason) returns (ghost ds: seq<Down>, ghost xs: seq<Pid>)
      requires Valid()
      modifies this
      ensures Valid() && nextPid == old(nextPid)
      ensures downs == old(downs) + ds && exits == old(exits) + xs
      ensures Exited(old(actors), actors, pid, ds, xs)
      ensures Reasoned(old(actors), ds, pid, reason)
      ensures stopped == old(stopped) + (old(actors).Keys - actors.Keys - {pid})
      decreases |actors|, 0
    {
      ds, xs := [], [];
      if pid !in actors { return; }
      ghost var g := actors;
      var actor := actors[pid];
      actors := actors - {pid};
      exits := exits + [pid];
      PartialStart(g, pid);
      ds, xs := NotifyLinked(pid, actor.links, g);
      Assoc(old(exits), [pid], xs);
      xs := [pid] + xs;
      ghost var es := NotifyMonitors(pid, actor.monitors, reason);
      PartialFinish(g, actors, pid, ds, es, xs);
      Assoc(old(downs), ds, es);
      ds := ds + es;
    }

    /** The loop over the dead actor's links; `g` is the graph in which it was still alive. */
    method NotifyLinked(pid: Pid, links: set<Pid>, ghost g: Graph) returns (ghost ds: seq<Down>, ghost xs: seq<Pid>)
      requires Valid() && Partial(g, actors, pid, {}, [], [pid]) && links == g[pid].links
      modifies this
      ensures Valid() && nextPid == old(nextPid)
      ensures downs == old(downs) + ds && exits == old(exits) + xs
      ensures Partial(g, actors, pid, links, ds, [pid] + xs)
      ensures SubGraph(actors, old(actors)) && Reasoned(old(actors), ds, pid, Linked)
      ensures stopped == old(stopped) + (old(actors).Keys - actors.Keys)
      decreases |actors|, 4
    {
      ds, xs := [], [];
      var todo := links;
      while todo != {}
        invariant todo <= links && nextPid == old(nextPid) && Valid()
        invariant downs == old(downs) + ds && exits == old(exits) + xs
        invariant Partial(g, actors, pid, links - todo, ds, [pid] + xs)
        invariant SubGraph(actors, old(actors)) && Reasoned(old(actors), ds, pid, Linked)
        invariant stopped == old(stopped) + (old(actors).Keys - actors.Keys)
        decreases todo
      {
        var linked :| linked in todo;
        ghost var a := actors;
        Smaller(actors.Keys, old(actors).Keys);
        ghost var es, ys := Signal(linked);
        PartialStep(g, a, actors, pid, links - todo, linked, ds, es, [pid] + xs, ys);
        ReasonedChain(old(actors), a, ds, es, pid, linked);
        StoppedChain(old(stopped), old(actors).Keys, a.Keys, actors.Keys);
        OneFewer(links, todo, linked);
        Assoc([pid], xs, ys);
        Assoc(old(exits), xs, ys);
        Assoc(old(downs), ds, es);
        todo := todo - {linked};
        ds, xs := ds + es, xs + ys;
      }
      assert links - {} == links;
    }

    /** Delivers an exit signal to a linked actor, if that is still alive. */
    method Signal(linked: Pid) returns (ghost ds: seq<Down>, ghost xs: seq<Pid>)
      requires Valid()
      modifies this
      ensures Valid() && nextPid == old(nextPid)
      ensures downs == old(downs) + ds && exits == old(exits) + xs
      ensures Exited(old(actors), actors, linked, ds, xs) && Reasoned(old(actors), ds, linked, Linked)
      ensures SubGraph(actors, old(actors)) && stopped == old(stopped) + (old(actors).Keys - actors.Keys)
      decreases |actors|, 3
    {
      ds, xs := [], [];
      if linked in actors { ds, xs := HandleExitSignal(linked); }
    }

    /** Default handling of an exit signal: die as well. */
    method HandleExitSignal(pid: Pid) returns (ghost ds: seq<Down>, ghost xs: seq<Pid>)
      requires Valid() && pid in actors
      modifies this
      ensures Valid() && nextPid == old(nextPid)
      ensures downs == old(downs) + ds && exits == old(exits) + xs
      ensures Exited(old(actors), actors, pid, ds, xs) && Reasoned(old(actors), ds, pid, Linked)
      ensures stopped == old(stopped) + (old(actors).Keys - actors.Keys)
      decreases |actors|, 2
    {
      ds, xs := HandleCrash(pid, Linked);
    }

    method HandleCrash(pid: Pid, reason: ExitReason) returns (ghost ds: seq<Down>, ghost xs: seq<Pid>)
      requires Valid()
      modifies this
      ensures Valid() && nextPid == old(nextPid)
      ensures downs == old(downs) + ds && exits == old(exits) + xs
      ensures Exited(old(actors), actors, pid, ds, xs) && Reasoned(old(actors), ds, pid, reason)
      ensures stopped == old(stopped) + {pid} + (old(actors).Keys - actors.Keys)
      decreases |actors|, 1
    {
      stopped := stopped + {pid};
      ds, xs := NotifyExit(pid, reason);
    }

    /** The loop over the dead actor's monitors. */
    method NotifyMonitors(pid: Pid, monitors: set<Pid>, reason: ExitReason) returns (ghost es: seq<Down>)
      modifies this`downs
      ensures downs == old(downs) + es
      ensures Announced(actors, pid, monitors, es)
      ensures forall i :: 0 <= i < |es| ==> es[i].pid == pid && es[i].reason == reason
    {
      es := [];
      var todo := monitors;
      while todo != {}
        invariant todo <= monitors && downs == old(downs) + es
        invariant Announced(actors, pid, monitors - todo, es)
        invariant forall i :: 0 <= i < |es| ==> es[i].pid == pid && es[i].reason == reason
        decreases todo
      {
        var m :| m in todo;
        OneFewer(monitors, todo, m);
        AnnounceOne(actors, pid, monitors - todo, es, m, reason);
        todo := todo - {m};
        if m in actors {
          downs := downs + [Down(pid, m, reason)];
          es := es + [Down(pid, m, reason)];
        }
      }
      assert monitors - {} == monitors;
    }
  }
}
