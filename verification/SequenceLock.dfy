/**
 SeqLock (include/pman/seqlock.hpp): writers bump a version before and after they write the
 protected words one at a time; readers copy words one at a time and retry when the version
 moved.  Every load, store, increment and mutex call is one step; any number of threads interleave
 (sequential consistency, a version that does not wrap).
 */
module SequenceLock {
  import opened Tally

  /** One word as a reader copied it. */
  datatype Copy<V> = Copy(index: nat, value: V)

  datatype Pc<V> =
    | Out
    | WantMutex
    | WantOpen      // holds the mutex, version not yet odd
    | Writing
    | WantRelease   // version even again, mutex not yet released
    | WantVersion
    | Collecting(version: int, copies: seq<Copy<V>>)
    | Returned(version: int, copies: seq<Copy<V>>)

  /** `commits[k]` is the data every writer-free moment of version 2k shows. */
  datatype Lock<V> = Lock(version: int, mutex: bool, words: seq<V>, threads: seq<Pc<V>>, commits: seq<seq<V>>)

  datatype Event<V> =
    | CallLock(t: nat)
    | TakeMutex(t: nat)
    | OpenVersion(t: nat)
    | StoreWord(t: nat, index: nat, value: V)
    | CloseVersion(t: nat)
    | DropMutex(t: nat)
    | CallRead(t: nat)
    | LoadVersion(t: nat)
    | LoadWord(t: nat, index: nat)
    | CheckVersion(t: nat)
    | Leave(t: nat)

  function Start<V>(words: seq<V>, n: nat): Lock<V> {
    Lock(0, false, words, seq(n, i => Out), [words])
  }

  predicate Enabled<V>(l: Lock<V>, e: Event<V>) {
    && e.t < |l.threads|
    && var p := l.threads[e.t];
       match e
       case CallLock(_) => p.Out?
       case TakeMutex(_) => p.WantMutex? && !l.mutex
       case OpenVersion(_) => p.WantOpen?
       case StoreWord(_, index, _) => p.Writing? && index < |l.words|
       case CloseVersion(_) => p.Writing?
       case DropMutex(_) => p.WantRelease?
       case CallRead(_) => p.Out?
       case LoadVersion(_) => p.WantVersion?
       case LoadWord(_, index) => p.Collecting? && index < |l.words|
       case CheckVersion(_) => p.Collecting?
       case Leave(_) => p.Returned?
  }

  function Put<V>(l: Lock<V>, t: nat, p: Pc<V>): Lock<V>
    requires t < |l.threads|
  {
    l.(threads := l.threads[t := p])
  }

  function Apply<V>(l: Lock<V>, e: Event<V>): (l': Lock<V>)
    requires Enabled(l, e)
    ensures |l'.threads| == |l.threads|
  {
    var p := l.threads[e.t];
    match e
    case CallLock(t) => Put(l, t, WantMutex)
    case TakeMutex(t) => Put(l, t, WantOpen).(mutex := true)
    case OpenVersion(t) => Put(l, t, Writing).(version := l.version + 1)
    case StoreWord(t, index, value) => l.(words := l.words[index := value])
    case CloseVersion(t) => Put(l, t, WantRelease).(version := l.version + 1, commits := l.commits + [l.words])
    case DropMutex(t) => Put(l, t, Out).(mutex := false)
    case CallRead(t) => Put(l, t, WantVersion)
    case LoadVersion(t) => if l.version % 2 == 1 then l else Put(l, t, Collecting(l.version, []))
    case LoadWord(t, index) => Put(l, t, Collecting(p.version, p.copies + [Copy(index, l.words[index])]))
    case CheckVersion(t) => Put(l, t, if l.version == p.version then Returned(p.version, p.copies) else WantVersion)
    case Leave(t) => Put(l, t, Out)
  }

  function InWrite<V>(p: Pc<V>): nat { if p.Writing? then 1 else 0 }
  function HasMutex<V>(p: Pc<V>): nat { if p.WantOpen? || p.Writing? || p.WantRelease? then 1 else 0 }

  /** Every copy shows `data`. */
  predicate CopiesOf<V(==)>(copies: seq<Copy<V>>, data: seq<V>) {
    forall i :: 0 <= i < |copies| ==> copies[i].index < |data| && copies[i].value == data[copies[i].index]
  }

  ghost predicate ReaderOk<V>(l: Lock<V>, p: Pc<V>) {
    match p
    case Collecting(version, copies) =>
      0 <= version <= l.version && version % 2 == 0 && (l.version == version ==> CopiesOf(copies, l.words))
    case Returned(version, copies) =>
      0 <= version <= l.version && version % 2 == 0 && version / 2 < |l.commits|
      && CopiesOf(copies, l.commits[version / 2])
    case _ => true
  }

  ghost predicate Inv<V>(l: Lock<V>) {
    && l.version >= 0
    && |l.commits| == l.version / 2 + 1
    && Sum(l.threads, HasMutex) == (if l.mutex then 1 else 0)
    && Sum(l.threads, InWrite) == l.version % 2
    && (l.version % 2 == 0 ==> l.words == l.commits[l.version / 2])
    && (forall t :: 0 <= t < |l.threads| ==> ReaderOk(l, l.threads[t]))
  }

  lemma {:induction false} StartInv<V>(words: seq<V>, n: nat)
    ensures Inv(Start(words, n))
  {
    var ts := Start(words, n).threads;
    SumZero(ts, HasMutex);
    SumZero(ts, InWrite);
  }

  lemma {:induction false} StepSums<V>(l: Lock<V>, e: Event<V>)
    requires Inv(l) && Enabled(l, e)
    ensures var l' := Apply(l, e);
            && Sum(l'.threads, HasMutex) == (if l'.mutex then 1 else 0)
            && Sum(l'.threads, InWrite) == l'.version % 2
            && (e.StoreWord? ==> l.version % 2 == 1)
            && (e.OpenVersion? ==> l.version % 2 == 0)
            && (e.CloseVersion? ==> l.version % 2 == 1)
  {
    var p' := Apply(l, e).threads[e.t];
    assert Apply(l, e).threads == l.threads[e.t := p'];
    SumUpdate(l.threads, e.t, p', HasMutex);
    SumUpdate(l.threads, e.t, p', InWrite);
    SumAtLeast(l.threads, e.t, HasMutex);
    SumAtLeast(l.threads, e.t, InWrite);
    if e.OpenVersion? && l.version % 2 == 1 {
      var w := SumPositive(l.threads, InWrite);
      SumAtLeastTwo(l.threads, if w < e.t then w else e.t, if w < e.t then e.t else w, HasMutex);
      assert false;
    }
  }

  /** Every step keeps every reader's copies consistent with one committed version. */
  lemma {:induction false} StepInv<V>(l: Lock<V>, e: Event<V>)
    requires Inv(l) && Enabled(l, e)
    ensures Inv(Apply(l, e))
  {
    StepSums(l, e);
    var l' := Apply(l, e);
    forall t | 0 <= t < |l'.threads| ensures ReaderOk(l', l'.threads[t]) {
      assert ReaderOk(l, l.threads[t]);
    }
  }

  predicate IsRun<V>(l: Lock<V>, es: seq<Event<V>>)
    decreases |es|
  {
    es == [] || (Enabled(l, es[0]) && IsRun(Apply(l, es[0]), es[1..]))
  }

  function Exec<V>(l: Lock<V>, es: seq<Event<V>>): (l': Lock<V>)
    requires IsRun(l, es)
    ensures |l'.threads| == |l.threads|
    decreases |es|
  {
    if es == [] then l else Exec(Apply(l, es[0]), es[1..])
  }

  lemma {:induction false} RunInv<V>(l: Lock<V>, es: seq<Event<V>>)
    requires Inv(l) && IsRun(l, es)
    ensures Inv(Exec(l, es))
    decreases |es|
  {
    if es == [] {
    } else {
      StepInv(l, es[0]);
      RunInv(Apply(l, es[0]), es[1..]);
    }
  }

  /**
   A read that returns has copied, in any order and as often as it liked, words of one and the
   same committed state: the one of the even version it loaded first.
   */
  lemma {:induction false} ReadIsSnapshot<V>(words: seq<V>, n: nat, es: seq<Event<V>>, t: nat)
    requires IsRun(Start(words, n), es) && t < n
    requires Exec(Start(words, n), es).threads[t].Returned?
    ensures var l := Exec(Start(words, n), es);
            var p := l.threads[t];
            && p.version % 2 == 0 && 0 <= p.version / 2 < |l.commits|
            && CopiesOf(p.copies, l.commits[p.version / 2])
  {
    StartInv(words, n);
    RunInv(Start(words, n), es);
    var l := Exec(Start(words, n), es);
    assert ReaderOk(l, l.threads[t]);
  }

  /** That committed state is moreover still the current one at the very check that accepts it. */
  lemma {:induction false} AcceptedReadIsCurrent<V>(words: seq<V>, n: nat, es: seq<Event<V>>, t: nat)
    requires IsRun(Start(words, n), es) && t < n
    requires Exec(Start(words, n), es).threads[t].Collecting?
    requires Apply(Exec(Start(words, n), es), CheckVersion(t)).threads[t].Returned?
    ensures CopiesOf(Exec(Start(words, n), es).threads[t].copies, Exec(Start(words, n), es).words)
    ensures forall u :: 0 <= u < n ==> !Exec(Start(words, n), es).threads[u].Writing?
  {
    StartInv(words, n);
    RunInv(Start(words, n), es);
    var l := Exec(Start(words, n), es);
    assert ReaderOk(l, l.threads[t]);
    forall u | 0 <= u < n ensures !l.threads[u].Writing? {
      SumAtLeast(l.threads, u, InWrite);
    }
  }

  // What a write and a read do when nobody interferes

  datatype Store<V> = Store(index: nat, value: V)

  function Stores<V>(t: nat, ss: seq<Store<V>>): seq<Event<V>> {
    if ss == [] then [] else [StoreWord(t, ss[0].index, ss[0].value)] + Stores(t, ss[1..])
  }

  function Stored<V>(words: seq<V>, ss: seq<Store<V>>): (r: seq<V>)
    requires forall i :: 0 <= i < |ss| ==> ss[i].index < |words|
    ensures |r| == |words|
    decreases |ss|
  {
    if ss == [] then words else Stored(words[ss[0].index := ss[0].value], ss[1..])
  }

  lemma {:induction false} StoresApply<V>(l: Lock<V>, t: nat, ss: seq<Store<V>>)
    requires t < |l.threads| && l.threads[t].Writing? && forall i :: 0 <= i < |ss| ==> ss[i].index < |l.words|
    ensures IsRun(l, Stores(t, ss)) && Exec(l, Stores(t, ss)) == l.(words := Stored(l.words, ss))
    decreases |ss|
  {
    if ss == [] {
    } else {
      var e := StoreWord(t, ss[0].index, ss[0].value);
      assert Stores(t, ss)[1..] == Stores(t, ss[1..]) && Stores(t, ss)[0] == e;
      StoresApply(Apply(l, e), t, ss[1..]);
    }
  }

  /** A write section leaves the last value stored to each word, one more commit of all words, and the lock free. */
  lemma {:induction false} WriteSection<V>(l: Lock<V>, t: nat, ss: seq<Store<V>>)
    requires t < |l.threads| && l.threads[t].Out? && !l.mutex && forall i :: 0 <= i < |ss| ==> ss[i].index < |l.words|
    ensures var open := Apply(Apply(Apply(l, CallLock(t)), TakeMutex(t)), OpenVersion(t));
            && IsRun(open, Stores(t, ss))
            && var done := Exec(open, Stores(t, ss));
               && Enabled(done, CloseVersion(t)) && Enabled(Apply(done, CloseVersion(t)), DropMutex(t))
               && Apply(Apply(done, CloseVersion(t)), DropMutex(t))
                  == l.(words := Stored(l.words, ss), version := l.version + 2, commits := l.commits + [Stored(l.words, ss)])
  {
    var open := Apply(Apply(Apply(l, CallLock(t)), TakeMutex(t)), OpenVersion(t));
    StoresApply(open, t, ss);
    assert open.threads[t := Out] == l.threads;
    var done := Exec(open, Stores(t, ss));
    assert Apply(Apply(done, CloseVersion(t)), DropMutex(t)).threads == open.threads[t := Out];
  }

  function Loads<V>(t: nat, indices: seq<nat>): seq<Event<V>> {
    if indices == [] then [] else [LoadWord(t, indices[0])] + Loads(t, indices[1..])
  }

  function Copies<V>(words: seq<V>, indices: seq<nat>): seq<Copy<V>>
    requires forall i :: 0 <= i < |indices| ==> indices[i] < |words|
    decreases |indices|
  {
    if indices == [] then [] else [Copy(indices[0], words[indices[0]])] + Copies(words, indices[1..])
  }

  lemma {:induction false} LoadsApply<V>(l: Lock<V>, t: nat, indices: seq<nat>)
    requires t < |l.threads| && l.threads[t].Collecting? && forall i :: 0 <= i < |indices| ==> indices[i] < |l.words|
    ensures IsRun(l, Loads(t, indices))
    ensures var p := l.threads[t];
            Exec(l, Loads(t, indices)) == Put(l, t, Collecting(p.version, p.copies + Copies(l.words, indices)))
    decreases |indices|
  {
    var p := l.threads[t];
    if indices == [] {
      assert p.copies + [] == p.copies && l.threads[t := p] == l.threads;
    } else {
      hide Apply, IsRun, Exec;
      var e: Event<V> := LoadWord(t, indices[0]);
      var rest, c := indices[1..], Copy(indices[0], l.words[indices[0]]);
      var p' := Collecting(p.version, p.copies + [c]);
      OneLoad(l, t, indices[0]);
      LoadsApply(Put(l, t, p'), t, rest);
      RunCons(l, e, Loads(t, rest));
      assert p'.copies + Copies(l.words, rest) == p.copies + Copies(l.words, indices);
      PutTwice(l, t, p', Collecting(p.version, p.copies + Copies(l.words, indices)));
    }
  }

  lemma {:induction false} OneLoad<V>(l: Lock<V>, t: nat, index: nat)
    requires t < |l.threads| && l.threads[t].Collecting? && index < |l.words|
    ensures var p := l.threads[t];
            Apply(l, LoadWord(t, index)) == Put(l, t, Collecting(p.version, p.copies + [Copy(index, l.words[index])]))
  {}

  lemma {:induction false} PutTwice<V>(l: Lock<V>, t: nat, p: Pc<V>, q: Pc<V>)
    requires t < |l.threads|
    ensures Put(Put(l, t, p), t, q) == Put(l, t, q)
  {
    assert l.threads[t := p][t := q] == l.threads[t := q];
  }

  lemma {:induction false} RunCons<V>(l: Lock<V>, e: Event<V>, es: seq<Event<V>>)
    requires Enabled(l, e) && IsRun(Apply(l, e), es)
    ensures IsRun(l, [e] + es) && Exec(l, [e] + es) == Exec(Apply(l, e), es)
  {
    hide Apply, Enabled;
    assert ([e] + es)[1..] == es;
  }

  /** A read during which nobody writes returns at the first attempt, with copies of the words it asked for, in order. */
  lemma {:induction false} UndisturbedRead<V>(l: Lock<V>, t: nat, indices: seq<nat>)
    requires t < |l.threads| && l.threads[t].Out? && l.version % 2 == 0
    requires forall i :: 0 <= i < |indices| ==> indices[i] < |l.words|
    ensures var open := Apply(Apply(l, CallRead(t)), LoadVersion(t));
            && open.threads[t].Collecting? && IsRun(open, Loads(t, indices))
            && var done := Exec(open, Loads(t, indices));
               && Enabled(done, CheckVersion(t))
               && Apply(done, CheckVersion(t)) == Put(l, t, Returned(l.version, Copies(l.words, indices)))
  {
    var open := Apply(Apply(l, CallRead(t)), LoadVersion(t));
    LoadsApply(open, t, indices);
    var copies := Copies(l.words, indices);
    assert [] + copies == copies;
    var r := Returned(l.version, copies);
    assert Apply(Exec(open, Loads(t, indices)), CheckVersion(t)).threads == l.threads[t := r];
  }

  /** A read starts over when the version is odd or has moved since, and a returned one ends. */
  lemma {:induction false} DisturbedReadRetries<V>(l: Lock<V>, t: nat)
    requires t < |l.threads|
    ensures l.threads[t].WantVersion? && l.version % 2 == 1 ==> Apply(l, LoadVersion(t)).threads[t].WantVersion?
    ensures l.threads[t].Collecting? && l.version != l.threads[t].version ==>
              Apply(l, CheckVersion(t)).threads[t].WantVersion?
    ensures l.threads[t].Returned? ==> Apply(l, Leave(t)).threads[t].Out?
  {}

  /** The object itself. */
  class SeqLock<V> {
    var version: int
    var mutex: bool
    var words: seq<V>
    ghost var threads: seq<Pc<V>>
    ghost var commits: seq<seq<V>>

    ghost function View(): Lock<V>
      reads this
    {
      Lock(version, mutex, words, threads, commits)
    }

    constructor (words: seq<V>, ghost n: nat)
      ensures View() == Start(words, n) && Inv(View())
    {
      this.version, this.mutex, this.words := 0, false, words;
      threads := seq(n, i => Out);
      commits := [words];
      new;
      StartInv(words, n);
    }

    /** fetch_add(1) on the version: lock makes it odd, unlock makes it even and publishes. */
    method BumpVersion(ghost e: Event<V>)
      requires Inv(View()) && Enabled(View(), e) && (e.OpenVersion? || e.CloseVersion?)
      modifies this
      ensures View() == Apply(old(View()), e) && Inv(View())
      ensures version == old(version) + 1 && words == old(words)
    {
      StepInv(View(), e);
      threads, commits := Apply(View(), e).threads, Apply(View(), e).commits;
      version := version + 1;
    }

    method SetMutex(ghost e: Event<V>, held: bool)
      requires Inv(View()) && Enabled(View(), e) && ((e.TakeMutex? && held) || (e.DropMutex? && !held))
      modifies this
      ensures View() == Apply(old(View()), e) && Inv(View())
      ensures mutex == held
    {
      StepInv(View(), e);
      threads := Apply(View(), e).threads;
      mutex := held;
    }

    method StoreWord(ghost t: nat, index: nat, value: V)
      requires Inv(View()) && Enabled(View(), Event.StoreWord(t, index, value))
      modifies this
      ensures View() == Apply(old(View()), Event.StoreWord(t, index, value)) && Inv(View())
      ensures words == old(words)[index := value]
    {
      StepInv(View(), Event.StoreWord(t, index, value));
      words := words[index := value];
    }

    /** The load that opens a read (retry when odd) and the one that closes it (retry when moved). */
    method LoadVersion(ghost e: Event<V>) returns (seen: int)
      requires Inv(View()) && Enabled(View(), e) && (e.LoadVersion? || e.CheckVersion?)
      modifies this
      ensures View() == Apply(old(View()), e) && Inv(View())
      ensures seen == version
    {
      StepInv(View(), e);
      seen := version;
      threads := Apply(View(), e).threads;
    }

    method LoadWord(ghost t: nat, index: nat) returns (value: V)
      requires Inv(View()) && Enabled(View(), Event.LoadWord(t, index))
      modifies this
      ensures View() == Apply(old(View()), Event.LoadWord(t, index)) && Inv(View())
      ensures value == words[index]
    {
      StepInv(View(), Event.LoadWord(t, index));
      value := words[index];
      threads := Apply(View(), Event.LoadWord(t, index)).threads;
    }

    ghost method Switch(e: Event<V>)
      requires Inv(View()) && Enabled(View(), e) && (e.CallLock? || e.CallRead? || e.Leave?)
      modifies this
      ensures View() == Apply(old(View()), e) && Inv(View())
    {
      StepInv(View(), e);
      threads := Apply(View(), e).threads;
    }
  }
}
