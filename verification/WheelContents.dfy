/** The timers stored in the wheels' slots, as a multiset that ignores cancelled entries. */
module WheelContents {
  import opened TimerPool
  import opened WheelArithmetic

  type Wheels = seq<seq<seq<Entry>>>

  /** The entries of a slot that are not cancelled. */
  ghost function LiveIn(q: seq<Entry>): multiset<Entry> {
    if q == [] then multiset{}
    else
      var x := q[|q| - 1];
      LiveIn(q[..|q| - 1]) + Live(x)
  }

  ghost function Live(x: Entry): multiset<Entry> { if x.cancelled then multiset{} else multiset{x} }

  ghost function LiveRow(row: seq<seq<Entry>>): multiset<Entry> {
    if row == [] then multiset{} else LiveIn(row[0]) + LiveRow(row[1..])
  }

  ghost function LiveAll(ws: Wheels): multiset<Entry> {
    if ws == [] then multiset{} else LiveRow(ws[0]) + LiveAll(ws[1..])
  }

  predicate Shape(c: Config, ws: Wheels) { |ws| == c.levels && forall w :: 0 <= w < |ws| ==> |ws[w]| == c.size }

  function PutSlot(ws: Wheels, w: nat, s: nat, q: seq<Entry>): Wheels
    requires w < |ws| && s < |ws[w]|
  {
    ws[w := ws[w][s := q]]
  }

  lemma {:induction false} LiveAppend(q: seq<Entry>, x: Entry)
    ensures LiveIn(q + [x]) == LiveIn(q) + Live(x)
  {
    assert (q + [x])[..|q + [x]| - 1] == q;
  }

  lemma {:induction false} Regroup(h: multiset<Entry>, a: multiset<Entry>, x: multiset<Entry>,
                                   b: multiset<Entry>, y: multiset<Entry>)
    requires a + x == b + y
    ensures (h + a) + x == (h + b) + y
  {
    forall e ensures ((h + a) + x)[e] == ((h + b) + y)[e] { assert (a + x)[e] == (b + y)[e]; }
  }

  lemma {:induction false} SwapEnds(a: multiset<Entry>, b: multiset<Entry>, c: multiset<Entry>)
    ensures (a + b) + c == (c + b) + a
  {}

  lemma {:induction false} RowUpdate(row: seq<seq<Entry>>, s: nat, q: seq<Entry>)
    requires s < |row|
    ensures LiveRow(row[s := q]) + LiveIn(row[s]) == LiveRow(row) + LiveIn(q)
  {
    hide LiveIn;
    if s == 0 {
      assert row[0 := q][1..] == row[1..];
      SwapEnds(LiveIn(q), LiveRow(row[1..]), LiveIn(row[0]));
    } else {
      assert row[s := q][1..] == row[1..][s - 1 := q];
      RowUpdate(row[1..], s - 1, q);
      assert row[1..][s - 1] == row[s];
      Regroup(LiveIn(row[0]), LiveRow(row[1..][s - 1 := q]), LiveIn(row[s]), LiveRow(row[1..]), LiveIn(q));
    }
  }

  lemma {:induction false} AllUpdate(ws: Wheels, w: nat, row: seq<seq<Entry>>)
    requires w < |ws|
    ensures LiveAll(ws[w := row]) + LiveRow(ws[w]) == LiveAll(ws) + LiveRow(row)
  {
    if w == 0 {
      assert ws[0 := row][1..] == ws[1..];
    } else {
      assert ws[w := row][1..] == ws[1..][w - 1 := row];
      AllUpdate(ws[1..], w - 1, row);
      Regroup(LiveRow(ws[0]), LiveAll(ws[1..][w - 1 := row]), LiveRow(ws[w]), LiveAll(ws[1..]), LiveRow(row));
    }
  }

  lemma {:induction false} SlotUpdate(ws: Wheels, w: nat, s: nat, q: seq<Entry>)
    requires w < |ws| && s < |ws[w]|
    ensures LiveAll(PutSlot(ws, w, s, q)) + LiveIn(ws[w][s]) == LiveAll(ws) + LiveIn(q)
  {
    hide LiveIn, LiveRow, LiveAll;
    RowUpdate(ws[w], s, q);
    AllUpdate(ws, w, ws[w][s := q]);
    var a, b, c, d := LiveAll(PutSlot(ws, w, s, q)), LiveRow(ws[w]), LiveAll(ws), LiveRow(ws[w][s := q]);
    CancelTerms(a, b, c, d, LiveIn(ws[w][s]), LiveIn(q));
  }

  lemma {:induction false} CancelTerms(a: multiset<Entry>, b: multiset<Entry>, c: multiset<Entry>, d: multiset<Entry>,
                                       x: multiset<Entry>, y: multiset<Entry>)
    requires a + b == c + d && d + x == b + y
    ensures a + x == c + y
  {
    forall e ensures (a + x)[e] == (c + y)[e] {
      assert (a + b)[e] == (c + d)[e] && (d + x)[e] == (b + y)[e];
    }
  }

  /** A slot's live entries are among all live entries. */
  lemma {:induction false} SlotWithinAll(ws: Wheels, w: nat, s: nat)
    requires w < |ws| && s < |ws[w]|
    ensures LiveIn(ws[w][s]) <= LiveAll(ws)
  {
    SlotUpdate(ws, w, s, []);
    var rest := LiveAll(PutSlot(ws, w, s, []));
    assert rest + LiveIn(ws[w][s]) == LiveAll(ws) + multiset{};
    assert LiveAll(ws) + multiset{} == LiveAll(ws);
  }

  predicate Matches(x: Entry, id: nat) { x.id == id && !x.cancelled }

  lemma {:induction false} NoneInSlot(q: seq<Entry>, id: nat, e: Entry)
    requires (forall k :: 0 <= k < |q| ==> !Matches(q[k], id)) && e.id == id
    ensures LiveIn(q)[e] == 0
  {
    if q == [] {
    } else {
      NoneInSlot(q[..|q| - 1], id, e);
    }
  }

  lemma {:induction false} NoneInRow(row: seq<seq<Entry>>, id: nat, e: Entry)
    requires (forall s, k :: 0 <= s < |row| && 0 <= k < |row[s]| ==> !Matches(row[s][k], id)) && e.id == id
    ensures LiveRow(row)[e] == 0
  {
    if row == [] {
    } else {
      NoneInSlot(row[0], id, e);
      assert forall s :: 0 <= s < |row| - 1 ==> row[1..][s] == row[s + 1];
      NoneInRow(row[1..], id, e);
    }
  }

  predicate NoMatch(row: seq<seq<Entry>>, id: nat) {
    forall s, k :: 0 <= s < |row| && 0 <= k < |row[s]| ==> !Matches(row[s][k], id)
  }

  lemma {:induction false} NoneAtAll(ws: Wheels, id: nat, e: Entry)
    requires (forall w :: 0 <= w < |ws| ==> NoMatch(ws[w], id)) && e.id == id
    ensures LiveAll(ws)[e] == 0
  {
    if ws == [] {
    } else {
      NoneInRow(ws[0], id, e);
      assert forall w :: 0 <= w < |ws| - 1 ==> ws[1..][w] == ws[w + 1];
      NoneAtAll(ws[1..], id, e);
    }
  }

  lemma {:induction false} LiveLast(q: seq<Entry>)
    requires q != []
    ensures LiveIn(q) == LiveIn(q[..|q| - 1]) + Live(q[|q| - 1])
  {}

  lemma {:induction false} CancelLast(m: multiset<Entry>, x: Entry)
    requires !x.cancelled
    ensures m + Live(x) == m + Live(x.(cancelled := true)) + multiset{x}
  {
    assert m + multiset{} == m;
  }

  lemma {:induction false} CarryOver(t: multiset<Entry>, a: multiset<Entry>, t': multiset<Entry>, a': multiset<Entry>,
                                     last: multiset<Entry>, x: multiset<Entry>)
    requires t == a + last && t' == a' + last && a == a' + x
    ensures t == t' + x
  {}

  function Cancelled(q: seq<Entry>, k: nat): seq<Entry>
    requires k < |q|
  {
    q[k := q[k].(cancelled := true)]
  }

  lemma {:induction false} MarkEarlier(q: seq<Entry>, k: nat)
    requires k < |q| - 1
    requires LiveIn(q[..|q| - 1]) == LiveIn(Cancelled(q[..|q| - 1], k)) + multiset{q[k]}
    ensures LiveIn(q) == LiveIn(Cancelled(q, k)) + multiset{q[k]}
  {
    hide LiveIn, Live;
    var n, q' := |q| - 1, Cancelled(q, k);
    LiveLast(q);
    LiveLast(q');
    assert q'[..n] == Cancelled(q[..n], k);
    CarryOver(LiveIn(q), LiveIn(q[..n]), LiveIn(q'), LiveIn(q'[..n]), Live(q[n]), multiset{q[k]});
  }

  lemma {:induction false} MarkLast(q: seq<Entry>)
    requires q != [] && !q[|q| - 1].cancelled
    ensures LiveIn(q) == LiveIn(Cancelled(q, |q| - 1)) + multiset{q[|q| - 1]}
  {
    hide LiveIn, Live;
    var n := |q| - 1;
    LiveLast(q);
    LiveLast(Cancelled(q, n));
    assert Cancelled(q, n)[..n] == q[..n];
    CancelLast(LiveIn(q[..n]), q[n]);
  }

  lemma {:induction false} MarkCancelled(q: seq<Entry>, k: nat)
    requires k < |q| && !q[k].cancelled
    ensures LiveIn(q) == LiveIn(Cancelled(q, k)) + multiset{q[k]}
  {
    hide LiveIn, Cancelled;
    if k == |q| - 1 {
      MarkLast(q);
    } else {
      MarkCancelled(q[..|q| - 1], k);
      MarkEarlier(q, k);
    }
  }

  lemma {:induction false} LiveInHas(q: seq<Entry>, k: nat)
    requires k < |q| && !q[k].cancelled
    ensures LiveIn(q)[q[k]] > LiveIn(q[..k])[q[k]]
    decreases |q|
  {
    var n := |q| - 1;
    hide LiveIn;
    LiveLast(q);
    if k == n {
    } else {
      LiveInHas(q[..n], k);
      assert q[..n][..k] == q[..k] && q[..n][k] == q[k];
    }
  }
}
