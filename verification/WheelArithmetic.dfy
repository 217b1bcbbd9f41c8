/**
 The arithmetic of the timer wheel (src/timer_wheel.cpp): the slot counters, which advance like an odometer,
 and the choice of wheel and slot for a delay.  Each wheel has `size` slots; one slot
 of wheel w spans tick * size^w nanoseconds.
 */
module WheelArithmetic {

  datatype Config = Config(tick: int, size: nat, levels: nat) {
    predicate Valid() { tick > 0 && size > 0 && levels > 0 }
  }

  // The odometer

  /** One tick on the slot counters from wheel 0 up: advance, and carry on while a counter wraps. */
  function Inc(slots: seq<nat>, size: nat): seq<nat>
    requires size > 0
  {
    if slots == [] then []
    else
      var d := (slots[0] + 1) % size;
      if d == 0 then [0] + Inc(slots[1..], size) else [d] + slots[1..]
  }

  /** The lowest k digits of t in base `size`. */
  function Digits(t: nat, k: nat, size: nat): (ds: seq<nat>)
    requires size > 0
    ensures |ds| == k
    decreases k
  {
    if k == 0 then [] else [t % size] + Digits(t / size, k - 1, size)
  }

  function Pow(b: nat, w: nat): nat { if w == 0 then 1 else b * Pow(b, w - 1) }

  lemma {:induction false} NextDigit(t: nat, n: nat)
    requires n > 0
    ensures (t + 1) % n == (t % n + 1) % n
    ensures (t + 1) / n == if (t + 1) % n == 0 then t / n + 1 else t / n
  {
    DivMod(t, n);
    NextFrom(t, n, t / n, t % n);
  }

  lemma {:induction false} NextFrom(t: nat, n: nat, q: nat, r: nat)
    requires n > 0 && t == n * q + r && r < n
    ensures (t + 1) % n == (r + 1) % n
    ensures (t + 1) / n == if (t + 1) % n == 0 then q + 1 else q
  {
    if r + 1 < n {
      DivModUnique(t + 1, n, q, r + 1);
      DivModUnique(r + 1, n, 0, r + 1);
    } else {
      assert t + 1 == (q + 1) * n + 0;
      DivModUnique(t + 1, n, q + 1, 0);
      DivModUnique(r + 1, n, 1, 0);
    }
  }

  lemma {:induction false} Multiple(k: int, n: int)
    requires n > 0
    ensures k >= 1 ==> k * n >= n
    ensures k <= -1 ==> k * n <= -n
  {
    if k >= 1 { assert k * n == (k - 1) * n + n; }
    if k <= -1 { assert k * n == (k + 1) * n - n; }
  }

  lemma {:induction false} QuotientUnique(n: int, q: int, r: int, q': int, r': int)
    requires n > 0 && q * n + r == q' * n + r' && 0 <= r < n && 0 <= r' < n
    ensures q == q' && r == r'
  {
    Multiple(q - q', n);
    assert (q - q') * n == q * n - q' * n;
  }

  lemma {:induction false} DivModUnique(x: nat, n: nat, q: nat, r: nat)
    requires n > 0 && x == q * n + r && r < n
    ensures x / n == q && x % n == r
  {
    QuotientUnique(n, q, r, x / n, x % n);
  }

  lemma {:induction false} TickCounts(t: nat, k: nat, size: nat)
    requires size > 0
    ensures Inc(Digits(t, k, size), size) == Digits(t + 1, k, size)
    decreases k
  {
    if k == 0 {
    } else {
      NextDigit(t, size);
      TickCounts(t / size, k - 1, size);
      assert Digits(t, k, size)[1..] == Digits(t / size, k - 1, size);
    }
  }

  lemma {:induction false} PowPositive(b: nat, w: nat)
    requires b > 0
    ensures Pow(b, w) > 0
  {
    if w == 0 {
    } else {
      PowPositive(b, w - 1);
    }
  }

  lemma {:induction false} Positional(a: int, b: int, q1: int, r1: int, q2: int, r2: int)
    requires a > 0 && b > 0 && q1 == b * q2 + r2 && 0 <= r1 < a && 0 <= r2 < b
    ensures a * q1 + r1 == q2 * (a * b) + (a * r2 + r1) && 0 <= a * r2 + r1 < a * b
  {
    assert a * (b * q2 + r2) == q2 * (a * b) + a * r2;
    if r2 > 0 { Multiple(r2, a); }
    Multiple(b - r2, a);
    assert (b - r2) * a == a * b - a * r2;
  }

  lemma {:induction false} DivDiv(t: nat, a: nat, b: nat)
    requires a > 0 && b > 0
    ensures a * b > 0 && (t / a) / b == t / (a * b)
  {
    DivMod(t, a);
    DivMod(t / a, b);
    TwoDigits(t, a, b, t / a, t % a, t / a / b, t / a % b);
  }

  lemma {:induction false} DivMod(t: nat, n: nat)
    requires n > 0
    ensures t == n * (t / n) + t % n && t % n < n
  {}

  lemma {:induction false} TwoDigits(t: nat, a: nat, b: nat, q1: nat, r1: nat, q2: nat, r2: nat)
    requires a > 0 && b > 0 && t == a * q1 + r1 && q1 == b * q2 + r2 && r1 < a && r2 < b
    ensures a * b > 0 && t / (a * b) == q2
  {
    Positional(a, b, q1, r1, q2, r2);
    DivModUnique(t, a * b, q2, a * r2 + r1);
  }

  /** After t ticks, counter w shows t divided by wheelSize^w, modulo wheelSize. */
  lemma {:induction false} DigitIsQuotient(t: nat, k: nat, size: nat, w: nat)
    requires size > 0 && w < k
    ensures Pow(size, w) > 0 && Digits(t, k, size)[w] == (t / Pow(size, w)) % size
    decreases k
  {
    PowPositive(size, w);
    if w == 0 {
    } else {
      DigitIsQuotient(t / size, k - 1, size, w - 1);
      PowPositive(size, w - 1);
      DivDiv(t, size, Pow(size, w - 1));
    }
  }

  lemma {:induction false} DivAdd(t: nat, o: nat, p: nat)
    requires p > 0
    ensures (t + o * p) / p == t / p + o
  {
    DivMod(t, p);
    assert t + o * p == (t / p + o) * p + t % p;
    DivModUnique(t + o * p, p, t / p + o, t % p);
  }

  lemma {:induction false} ModAdd(a: nat, o: nat, n: nat)
    requires n > 0
    ensures (a + o) % n == (a % n + o) % n
  {
    DivMod(a, n);
    DivMod(a % n + o, n);
    SumOfMultiples(a + o, n, a / n, (a % n + o) / n, (a % n + o) % n);
  }

  lemma {:induction false} SumOfMultiples(x: nat, n: nat, p: nat, q: nat, r: nat)
    requires n > 0 && x == n * p + (n * q + r) && r < n
    ensures x % n == r
  {
    assert (p + q) * n == n * p + n * q;
    DivModUnique(x, n, p + q, r);
  }

  /** After o * size^w more ticks, wheel w has moved on by o slots. */
  lemma {:induction false} WheelMovesOn(t: nat, k: nat, size: nat, w: nat, o: nat)
    requires size > 0 && w < k
    ensures Digits(t + o * Pow(size, w), k, size)[w] == (Digits(t, k, size)[w] + o) % size
  {
    hide Digits, Pow;
    DigitIsQuotient(t, k, size, w);
    DigitIsQuotient(t + o * Pow(size, w), k, size, w);
    DivAdd(t, o, Pow(size, w));
    ModAdd(t / Pow(size, w), o, size);
  }

  // Placement

  /** The time one slot of wheel w spans. */
  function Span(c: Config, w: nat): int { if w == 0 then c.tick else Span(c, w - 1) * c.size }

  lemma {:induction false} SpanPositive(c: Config, w: nat)
    requires c.Valid()
    ensures Span(c, w) > 0
  {
    if w == 0 {
    } else {
      SpanPositive(c, w - 1);
    }
  }

  function SlotFor(c: Config, delay: nat, w: nat): nat
    requires c.Valid()
  {
    SpanPositive(c, w);
    delay / Span(c, w)
  }

  /** The search for a wheel, from wheel w on. */
  function Pick(c: Config, delay: nat, w: nat): nat
    requires c.Valid() && w < c.levels
    decreases c.levels - w
  {
    if SlotFor(c, delay, w) < c.size || w == c.levels - 1 then w else Pick(c, delay, w + 1)
  }

  lemma {:induction false} Covers(delay: nat, span: int, size: nat)
    requires span > 0
    ensures delay / span < size <==> delay < span * size
  {
    var q, r := delay / span, delay % span;
    assert delay == q * span + r;
    Multiple(size - q, span);
    assert (size - q) * span == span * size - q * span;
  }

  /** All that the slots of wheel w together span. */
  function Reach(c: Config, w: nat): int { Span(c, w) * c.size }

  lemma {:induction false} SlotCovers(c: Config, delay: nat, w: nat)
    requires c.Valid()
    ensures SlotFor(c, delay, w) < c.size <==> delay < Reach(c, w)
  {
    SpanPositive(c, w);
    Covers(delay, Span(c, w), c.size);
  }

  /** insert picks the least wheel whose reach covers the delay, or the top wheel when none does. */
  lemma {:induction false} PickIsLeast(c: Config, delay: nat, w: nat)
    requires c.Valid() && w < c.levels
    ensures var p := Pick(c, delay, w);
            && w <= p < c.levels
            && (delay < Reach(c, p) || p == c.levels - 1)
            && (forall v :: w <= v < p ==> delay >= Reach(c, v))
    decreases c.levels - w
  {
    hide SlotFor, Reach;
    SlotCovers(c, delay, w);
    if SlotFor(c, delay, w) >= c.size && w != c.levels - 1 { PickIsLeast(c, delay, w + 1); }
  }

  function Min(a: nat, b: nat): nat { if a <= b then a else b }

  /** How far ahead of the wheel's current slot the entry goes. */
  function Offset(c: Config, delay: nat): (o: nat)
    requires c.Valid()
    ensures o < c.size
  {
    Min(SlotFor(c, delay, Pick(c, delay, 0)), c.size - 1)
  }

  /**
   The offset is the delay in slots of the picked wheel, rounded down; only a delay beyond the reach of
   the top wheel goes to its farthest slot.
   */
  lemma {:induction false} OffsetMeasuresDelay(c: Config, delay: nat)
    requires c.Valid()
    ensures var p, o := Pick(c, delay, 0), Offset(c, delay);
            if delay < Reach(c, p) then o * Span(c, p) <= delay < (o + 1) * Span(c, p)
            else p == c.levels - 1 && o == c.size - 1
  {
    hide SlotFor, Span, Reach, Pick;
    var p := Pick(c, delay, 0);
    PickIsLeast(c, delay, 0);
    SlotCovers(c, delay, p);
    SlotBrackets(c, delay, p);
  }

  lemma {:induction false} SlotBrackets(c: Config, delay: nat, w: nat)
    requires c.Valid()
    ensures SlotFor(c, delay, w) * Span(c, w) <= delay < (SlotFor(c, delay, w) + 1) * Span(c, w)
  {
    hide Span;
    SpanPositive(c, w);
    Brackets(delay, Span(c, w));
  }

  lemma {:induction false} Brackets(delay: nat, span: nat)
    requires span > 0
    ensures (delay / span) * span <= delay < (delay / span + 1) * span
  {
    DivMod(delay, span);
    assert (delay / span + 1) * span == delay / span * span + span;
  }

  /** One slot of wheel w spans tick * size^w. */
  lemma {:induction false} SpanIsPower(c: Config, w: nat)
    ensures Span(c, w) == c.tick * Pow(c.size, w)
  {
    if w == 0 {
    } else {
      SpanIsPower(c, w - 1);
      assert c.tick * Pow(c.size, w - 1) * c.size == c.tick * (c.size * Pow(c.size, w - 1));
    }
  }

  lemma {:induction false} OffsetPositive(c: Config, delay: nat)
    requires c.Valid() && c.size > 1 && Pick(c, delay, 0) > 0
    ensures Offset(c, delay) >= 1
  {
    var p := Pick(c, delay, 0);
    PickIsLeast(c, delay, 0);
    SpanPositive(c, p);
    assert delay >= Reach(c, p - 1);
    Covers(delay, Span(c, p), 1);
  }

  /** Above wheel 0 an entry stays out of the current slot if and only if there is more than one slot. */
  lemma {:induction false} NeverIntoCurrentSlot(c: Config, delay: nat, current: nat)
    requires c.Valid() && Pick(c, delay, 0) > 0 && current < c.size
    ensures (current + Offset(c, delay)) % c.size != current <==> c.size > 1
  {
    if c.size > 1 { OffsetPositive(c, delay); }
    var o := Offset(c, delay);
    if current + o < c.size {
      DivModUnique(current + o, c.size, 0, current + o);
    } else {
      DivModUnique(current + o, c.size, 1, current + o - c.size);
    }
  }
}
