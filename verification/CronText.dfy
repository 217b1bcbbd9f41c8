/**
 The text form of cron expressions (src/cron_scheduler.cpp): parse and toString, on strings of
 characters.  A number that from_chars cannot read leaves the source's variable uninitialised;
 such text is given the outcome Indeterminate.
 */
module CronText {
  import opened CronSearch
  import opened Wrappers

  // Decimal numbers

  predicate IsDigit(ch: char) { '0' <= ch <= '9' }

  function DigitChar(d: nat): char
    requires d < 10
  {
    ('0' as int + d) as char
  }

  function DigitValue(ch: char): nat
    requires IsDigit(ch)
  {
    ch as int - '0' as int
  }

  function Show(n: nat): (s: string)
    ensures |s| > 0 && forall i :: 0 <= i < |s| ==> IsDigit(s[i])
  {
    if n < 10 then [DigitChar(n)] else Show(n / 10) + [DigitChar(n % 10)]
  }

  /** The length of the longest prefix made of digits. */
  function DigitPrefix(s: string): (k: nat)
    ensures k <= |s| && forall i :: 0 <= i < k ==> IsDigit(s[i])
  {
    if s == [] || !IsDigit(s[0]) then 0 else 1 + DigitPrefix(s[1..])
  }

  function Value(s: string): nat
    requires forall i :: 0 <= i < |s| ==> IsDigit(s[i])
  {
    if s == [] then 0 else 10 * Value(s[..|s| - 1]) + DigitValue(s[|s| - 1])
  }

  const INT_MAX := 0x7fff_ffff

  /** std::from_chars on int: an optional minus sign and digits; what follows is ignored. */
  function FromChars(s: string): Option<int> {
    var negative := s != [] && s[0] == '-';
    var t := if negative then s[1..] else s;
    var k := DigitPrefix(t);
    if k == 0 then None
    else
      var v: int := Value(t[..k]);
      if negative then (if v > INT_MAX + 1 then None else Some(-v))
      else if v > INT_MAX then None else Some(v)
  }

  lemma {:induction false} AllDigits(s: string)
    requires forall i :: 0 <= i < |s| ==> IsDigit(s[i])
    ensures DigitPrefix(s) == |s|
  {
    if s == [] {
    } else {
      AllDigits(s[1..]);
    }
  }

  lemma {:induction false} ShowReads(n: nat)
    ensures Value(Show(n)) == n
  {
    if n < 10 {
    } else {
      ShowReads(n / 10);
      assert Show(n)[..|Show(n)| - 1] == Show(n / 10);
    }
  }

  lemma {:induction false} FromCharsShow(n: nat)
    requires n <= INT_MAX
    ensures FromChars(Show(n)) == Some(n)
  {
    var s := Show(n);
    assert IsDigit(s[0]);
    AllDigits(s);
    assert s[..|s|] == s;
    ShowReads(n);
  }

  // One field

  /** The position of the first `ch`, or the length. */
  function Find(s: string, ch: char): (k: nat)
    ensures k <= |s| && (k < |s| ==> s[k] == ch) && forall i :: 0 <= i < k ==> s[i] != ch
  {
    if s == [] || s[0] == ch then 0 else 1 + Find(s[1..], ch)
  }

  /** The comma-separated parts; an empty part after a last comma does not count. */
  function Parts(s: string): seq<string>
    decreases |s|
  {
    if s == [] then []
    else
      var k := Find(s, ',');
      [s[..k]] + if k == |s| then [] else Parts(s[k + 1..])
  }

  /** The values from lo to hi, as far as the bit set reaches. */
  function Range(lo: int, hi: int, maxVal: nat): set<nat> { set v | v in Upto(maxVal) && lo <= v <= hi }

  /** The values a part stands for: a number, or a range of numbers. */
  function PartBits(part: string, maxVal: nat): Option<set<nat>> {
    var k := Find(part, '-');
    if k < |part| then
      var lo, hi := FromChars(part[..k]), FromChars(part[k + 1..]);
      if lo.None? || hi.None? then None else Some(Range(lo.value, hi.value, maxVal))
    else
      var v := FromChars(part);
      if v.None? then None else Some(Range(v.value, v.value, maxVal))
  }

  /** The union of what the parts stand for. */
  function UnionOf(parts: seq<string>, maxVal: nat): Option<set<nat>> {
    if parts == [] then Some({})
    else
      var rest, last := UnionOf(parts[..|parts| - 1], maxVal), PartBits(parts[|parts| - 1], maxVal);
      if rest.None? || last.None? then None else Some(rest.value + last.value)
  }

  function FieldBits(field: string, maxVal: nat): Option<set<nat>> {
    if field == "*" then Some(Upto(maxVal)) else UnionOf(Parts(field), maxVal)
  }

  /** The set values in ascending order. */
  function Values(bits: set<nat>, n: nat): seq<nat> {
    (if n == 0 then [] else Values(bits, n - 1)) + (if n in bits then [n] else [])
  }

  function Join(vs: seq<nat>): string {
    if vs == [] then ""
    else if |vs| == 1 then Show(vs[0])
    else Show(vs[0]) + "," + Join(vs[1..])
  }

  function FieldText(bits: set<nat>, maxVal: nat): string {
    var vs := Values(bits, maxVal);
    if |vs| == maxVal + 1 then "*" else Join(vs)
  }

  lemma {:induction false} ValuesAreTheBits(bits: set<nat>, n: nat)
    ensures forall v :: v in Values(bits, n) <==> v in bits && v <= n
  {
    if n == 0 {
    } else {
      ValuesAreTheBits(bits, n - 1);
    }
  }

  lemma {:induction false} FullCount(bits: set<nat>, n: nat)
    ensures |Values(bits, n)| <= n + 1
    ensures |Values(bits, n)| == n + 1 ==> Upto(n) <= bits
  {
    if n == 0 {
    } else {
      FullCount(bits, n - 1);
    }
  }

  predicate Ascending(vs: seq<nat>) { forall i, j :: 0 <= i < j < |vs| ==> vs[i] < vs[j] }

  /** The values are those of the set bits, each once and in ascending order. */
  lemma {:induction false} ValuesAscend(bits: set<nat>, n: nat)
    ensures Ascending(Values(bits, n))
    ensures forall v :: v in Values(bits, n) <==> v in bits && v <= n
  {
    ValuesAreTheBits(bits, n);
    if n == 0 {
    } else {
      ValuesAscend(bits, n - 1);
      var vs := Values(bits, n - 1);
      forall i | 0 <= i < |vs| ensures vs[i] < n { assert vs[i] in vs; }
    }
  }

  lemma {:induction false} AllSetCount(bits: set<nat>, n: nat)
    requires forall v: nat :: v <= n ==> v in bits
    ensures |Values(bits, n)| == n + 1
  {
    if n == 0 {
    } else {
      AllSetCount(bits, n - 1);
    }
  }

  /** The star is printed exactly when every bit is set; otherwise the numbers joined by commas. */
  lemma {:induction false} StarExactlyIfAllSet(bits: set<nat>, maxVal: nat)
    ensures FieldText(bits, maxVal) == "*" <==> forall v: nat :: v <= maxVal ==> v in bits
    ensures FieldText(bits, maxVal) != "*" ==> FieldText(bits, maxVal) == Join(Values(bits, maxVal))
  {
    hide Values, Join, Upto;
    FullCount(bits, maxVal);
    var vs := Values(bits, maxVal);
    if forall v: nat :: v <= maxVal ==> v in bits {
      AllSetCount(bits, maxVal);
    } else if vs == [] {
      EmptyJoin();
    } else {
      JoinStartsWithDigit(vs);
    }
  }

  lemma {:induction false} FindAfter(a: string, b: string, ch: char)
    requires forall i :: 0 <= i < |a| ==> a[i] != ch
    ensures Find(a + b, ch) == |a| + Find(b, ch)
  {
    if a == [] {
      assert a + b == b;
    } else {
      assert (a + b)[1..] == a[1..] + b;
      FindAfter(a[1..], b, ch);
    }
  }

  lemma {:induction false} NoSuchChar(a: string, ch: char)
    requires forall i :: 0 <= i < |a| ==> a[i] != ch
    ensures Find(a, ch) == |a|
  {
    FindAfter(a, "", ch);
    assert a + "" == a;
  }

  function ShowAll(vs: seq<nat>): (r: seq<string>)
    ensures |r| == |vs|
  {
    if vs == [] then [] else [Show(vs[0])] + ShowAll(vs[1..])
  }

  lemma {:induction false} PartsOfJoin(vs: seq<nat>)
    ensures Parts(Join(vs)) == ShowAll(vs)
  {
    hide Show;
    if |vs| == 1 {
      NoSuchChar(Show(vs[0]), ',');
      assert Show(vs[0])[..|Show(vs[0])|] == Show(vs[0]);
      assert vs[1..] == [];
    } else if vs != [] {
      var a, b := Show(vs[0]), Join(vs[1..]);
      FindAfter(a, "," + b, ',');
      assert a + "," + b == a + ("," + b);
      assert ("," + b)[0] == ',';
      assert (a + "," + b)[..|a|] == a && (a + "," + b)[|a| + 1..] == b;
      PartsOfJoin(vs[1..]);
    }
  }

  lemma {:induction false} PartBitsShow(v: nat, maxVal: nat)
    requires v <= maxVal <= INT_MAX
    ensures PartBits(Show(v), maxVal) == Some({v})
  {
    NoSuchChar(Show(v), '-');
    FromCharsShow(v);
    assert Range(v, v, maxVal) == {v};
  }

  lemma {:induction false} ShowAllAt(vs: seq<nat>, i: nat)
    requires i < |vs|
    ensures ShowAll(vs)[i] == Show(vs[i])
  {
    if i == 0 {
    } else {
      ShowAllAt(vs[1..], i - 1);
    }
  }

  function ToSet(vs: seq<nat>): (s: set<nat>)
    ensures forall v :: v in s <==> v in vs
  {
    if vs == [] then {}
    else
      var k := |vs| - 1;
      assert vs == vs[..k] + [vs[k]];
      ToSet(vs[..k]) + {vs[k]}
  }

  lemma {:induction false} UnionOfShown(vs: seq<nat>, parts: seq<string>, maxVal: nat)
    requires |parts| == |vs| && maxVal <= INT_MAX
    requires forall i :: 0 <= i < |vs| ==> parts[i] == Show(vs[i]) && vs[i] <= maxVal
    ensures UnionOf(parts, maxVal) == Some(ToSet(vs))
  {
    hide Show, PartBits, Upto;
    if vs == [] {
    } else {
      var k := |vs| - 1;
      UnionOfShown(vs[..k], parts[..k], maxVal);
      PartBitsShow(vs[k], maxVal);
    }
  }

  lemma {:induction false} JoinStartsWithDigit(vs: seq<nat>)
    requires vs != []
    ensures Join(vs) != [] && IsDigit(Join(vs)[0])
  {
    assert IsDigit(Show(vs[0])[0]);
  }

  lemma {:induction false} JoinRoundTrip(vs: seq<nat>, maxVal: nat)
    requires vs != [] && maxVal <= INT_MAX && forall v :: v in vs ==> v <= maxVal
    ensures FieldBits(Join(vs), maxVal) == Some(ToSet(vs))
  {
    hide Show, Join, Parts, UnionOf;
    JoinStartsWithDigit(vs);
    PartsOfJoin(vs);
    forall i | 0 <= i < |vs| ensures ShowAll(vs)[i] == Show(vs[i]) && vs[i] <= maxVal {
      ShowAllAt(vs, i);
      assert vs[i] in vs;
    }
    UnionOfShown(vs, ShowAll(vs), maxVal);
  }

  /** Only bits that a bit set with positions 0 to maxVal has. */
  predicate Within(bits: set<nat>, maxVal: nat) { forall v :: v in bits ==> v <= maxVal }

  /** Reading a printed field gives back the same bits, also for the star. */
  lemma {:induction false} FieldRoundTrip(bits: set<nat>, maxVal: nat)
    requires Within(bits, maxVal) && maxVal <= INT_MAX && bits != {}
    ensures FieldBits(FieldText(bits, maxVal), maxVal) == Some(bits)
  {
    hide Join, Values;
    var vs := Values(bits, maxVal);
    ValuesAreTheBits(bits, maxVal);
    FullCount(bits, maxVal);
    if |vs| != maxVal + 1 {
      var v :| v in bits;
      assert v in vs;
      JoinRoundTrip(vs, maxVal);
      assert ToSet(vs) == bits;
    } else {
      assert bits == Upto(maxVal);
    }
  }

  // The whole expression

  predicate IsSpace(ch: char) { ch == ' ' || '\t' <= ch <= '\r' }

  /** The length of the longest prefix without white space. */
  function WordLength(s: string): (k: nat)
    ensures k <= |s| && (k < |s| ==> IsSpace(s[k]))
  {
    if s == [] || IsSpace(s[0]) then 0 else 1 + WordLength(s[1..])
  }

  /** The words that successive operator>> calls extract. */
  function Words(s: string): seq<string>
    decreases |s|
  {
    if s == [] then []
    else if IsSpace(s[0]) then Words(s[1..])
    else
      var k := WordLength(s);
      [s[..k]] + Words(s[k..])
  }

  datatype Parsed = Expression(fields: Fields) | TooFewFields | Indeterminate

  /** CronExpression::parse.  Words after the fifth are ignored. */
  function Parse(s: string): Parsed {
    var w := Words(s);
    if |w| < 5 then TooFewFields
    else
      var minutes, hours, days := FieldBits(w[0], 59), FieldBits(w[1], 23), FieldBits(w[2], 31);
      var months, weekdays := FieldBits(w[3], 12), FieldBits(w[4], 6);
      if minutes.None? || hours.None? || days.None? || months.None? || weekdays.None? then Indeterminate
      else Expression(Fields(minutes.value, hours.value, days.value, months.value, weekdays.value))
  }

  /** CronExpression::toString. */
  function Text(c: Fields): string {
    FieldText(c.minutes, 59) + " " + FieldText(c.hours, 23) + " " + FieldText(c.daysOfMonth, 31) + " "
    + FieldText(c.months, 12) + " " + FieldText(c.daysOfWeek, 6)
  }

  predicate InRange(c: Fields) {
    && Within(c.minutes, 59) && Within(c.hours, 23) && Within(c.daysOfMonth, 31)
    && Within(c.months, 12) && Within(c.daysOfWeek, 6)
  }

  predicate NoSpace(s: string) { forall i :: 0 <= i < |s| ==> !IsSpace(s[i]) }

  lemma {:induction false} JoinNoSpace(vs: seq<nat>)
    ensures NoSpace(Join(vs))
  {
    hide Show;
    if |vs| <= 1 {
    } else {
      JoinNoSpace(vs[1..]);
    }
  }

  /** A printed field is one word, or nothing when no bit is set. */
  lemma {:induction false} FieldTextIsWord(bits: set<nat>, maxVal: nat)
    requires Within(bits, maxVal)
    ensures NoSpace(FieldText(bits, maxVal)) && (FieldText(bits, maxVal) == "" <==> bits == {})
  {
    hide Join, Values;
    var vs := Values(bits, maxVal);
    ValuesAreTheBits(bits, maxVal);
    JoinNoSpace(vs);
    if vs != [] {
      assert vs[0] in vs;
      JoinStartsWithDigit(vs);
    } else {
      assert forall v :: v in bits ==> v in vs;
      assert bits == {};
      EmptyJoin();
    }
  }

  lemma {:induction false} EmptyJoin()
    ensures Join([]) == ""
  {}

  lemma {:induction false} WordLengthBefore(a: string, b: string)
    requires NoSpace(a) && (b == "" || IsSpace(b[0]))
    ensures WordLength(a + b) == |a|
  {
    if a == [] {
      assert a + b == b;
    } else {
      assert (a + b)[1..] == a[1..] + b;
      WordLengthBefore(a[1..], b);
    }
  }

  function OneWord(a: string): seq<string> { if a == "" then [] else [a] }

  lemma {:induction false} WordsSplit(a: string, b: string)
    requires NoSpace(a)
    ensures Words(a + " " + b) == OneWord(a) + Words(b)
    ensures Words(a) == OneWord(a)
  {
    var s := a + (" " + b);
    assert a + " " + b == s;
    WordLengthBefore(a, " " + b);
    WordLengthBefore(a, "");
    assert a + "" == a;
    assert s[|a|..] == " " + b && s[..|a|] == a;
    assert (" " + b)[1..] == b;
    if a == "" { assert s == " " + b; } else { assert s[0] == a[0] && a[..|a|] == a && a[|a|..] == ""; }
  }

  /** The words of five blank-separated texts are those among them that are not empty. */
  lemma {:induction false} FiveWords(a: string, b: string, c: string, d: string, e: string)
    requires NoSpace(a) && NoSpace(b) && NoSpace(c) && NoSpace(d) && NoSpace(e)
    ensures Words(a + " " + b + " " + c + " " + d + " " + e)
         == OneWord(a) + OneWord(b) + OneWord(c) + OneWord(d) + OneWord(e)
  {
    hide Words, OneWord;
    var de := d + " " + e;
    var cde := c + " " + de;
    var bcde := b + " " + cde;
    assert a + " " + b + " " + c + " " + d + " " + e == a + " " + bcde;
    WordsSplit(a, bcde);
    WordsSplit(b, cde);
    WordsSplit(c, de);
    WordsSplit(d, e);
    WordsSplit(e, "");
    assert OneWord(a) + (OneWord(b) + (OneWord(c) + (OneWord(d) + OneWord(e))))
        == OneWord(a) + OneWord(b) + OneWord(c) + OneWord(d) + OneWord(e);
  }

  predicate AllFieldsNonempty(c: Fields) {
    c.minutes != {} && c.hours != {} && c.daysOfMonth != {} && c.months != {} && c.daysOfWeek != {}
  }

  /**
   Parsing the printed form of any expression gives back the same five bit sets if every field
   has a bit set, and is refused for too few fields otherwise.
   */
  lemma {:induction false} RoundTrip(c: Fields)
    requires InRange(c)
    ensures Parse(Text(c)) == if AllFieldsNonempty(c) then Expression(c) else TooFewFields
  {
    hide FieldText, FieldBits, Words, Within;
    FieldTextIsWord(c.minutes, 59);
    FieldTextIsWord(c.hours, 23);
    FieldTextIsWord(c.daysOfMonth, 31);
    FieldTextIsWord(c.months, 12);
    FieldTextIsWord(c.daysOfWeek, 6);
    FiveWords(FieldText(c.minutes, 59), FieldText(c.hours, 23), FieldText(c.daysOfMonth, 31),
              FieldText(c.months, 12), FieldText(c.daysOfWeek, 6));
    if AllFieldsNonempty(c) {
      FieldRoundTrip(c.minutes, 59);
      FieldRoundTrip(c.hours, 23);
      FieldRoundTrip(c.daysOfMonth, 31);
      FieldRoundTrip(c.months, 12);
      FieldRoundTrip(c.daysOfWeek, 6);
    }
  }

  // The loops of the source

  /** The parts from `pos` on are the one that ends at the next comma and those after it. */
  lemma {:induction false} PartsStep(field: string, pos: nat, k: nat)
    requires pos < |field| && k == Find(field[pos..], ',')
    ensures Parts(field[pos..]) == [field[pos..pos + k]] + PartsFrom(field, pos + k + 1)
  {
    var rest := field[pos..];
    assert rest[..k] == field[pos..pos + k];
    if k < |rest| { assert rest[k + 1..] == field[pos + k + 1..]; } else { assert PartsFrom(field, pos + k + 1) == []; }
  }

  function PartsFrom(field: string, pos: nat): seq<string> { if pos <= |field| then Parts(field[pos..]) else [] }

  lemma {:induction false} UnionAppend(parts: seq<string>, part: string, maxVal: nat)
    ensures var u, b := UnionOf(parts, maxVal), PartBits(part, maxVal);
      UnionOf(parts + [part], maxVal) == if u.None? || b.None? then None else Some(u.value + b.value)
  {
    hide PartBits;
    assert (parts + [part])[..|parts|] == parts;
  }

  lemma {:induction false} SeqAssoc(a: seq<string>, p: string, c: seq<string>)
    ensures a + ([p] + c) == (a + [p]) + c
  {}

  /** parseField. */
  method ParseField(field: string, maxVal: nat) returns (bits: Option<set<nat>>)
    ensures bits == FieldBits(field, maxVal)
  {
    hide PartBits, Parts, UnionOf, PartsFrom;
    if field == "*" {
      var all := SetAll(maxVal);
      return Some(all);
    }
    var pos, sofar: set<nat> := 0, {};
    ghost var parts: seq<string> := [];
    StartOfField(field, maxVal);
    while pos < |field|
      invariant 0 <= pos
      invariant parts + PartsFrom(field, pos) == Parts(field)
      invariant UnionOf(parts, maxVal) == Some(sofar)
      decreases |field| - pos
    {
      var k := Find(field[pos..], ',');
      var part := field[pos..pos + k];
      ghost var more := PartsFrom(field, pos + k + 1);
      PartsStep(field, pos, k);
      WithinField(field, pos);
      SeqAssoc(parts, part, more);
      UnionAppend(parts, part, maxVal);
      var one := ParsePart(part, maxVal);
      if one.None? {
        UnionFails(parts + [part], more, maxVal);
        return None;
      }
      sofar := sofar + one.value;
      parts := parts + [part];
      pos := pos + k + 1;
    }
    EndOfField(field, pos);
    assert parts + [] == parts;
    return Some(sofar);
  }

  lemma {:induction false} StartOfField(field: string, maxVal: nat)
    ensures [] + PartsFrom(field, 0) == Parts(field) && UnionOf([], maxVal) == Some({})
  {
    assert field[0..] == field;
  }

  lemma {:induction false} WithinField(field: string, pos: nat)
    requires pos < |field|
    ensures PartsFrom(field, pos) == Parts(field[pos..])
  {}

  lemma {:induction false} EndOfField(field: string, pos: nat)
    requires pos >= |field|
    ensures PartsFrom(field, pos) == []
  {}

  method SetAll(maxVal: nat) returns (bits: set<nat>)
    ensures bits == Upto(maxVal)
  {
    bits := {};
    for i := 0 to maxVal + 1
      invariant forall v: nat :: v in bits <==> v < i
    {
      bits := bits + {i};
    }
    assert bits == Upto(maxVal);
  }

  lemma {:induction false} UnionFails(parts: seq<string>, more: seq<string>, maxVal: nat)
    requires UnionOf(parts, maxVal).None?
    ensures UnionOf(parts + more, maxVal).None?
    decreases |more|
  {
    if more == [] {
      assert parts + more == parts;
    } else {
      var k := |more| - 1;
      UnionFails(parts, more[..k], maxVal);
      assert (parts + more)[..|parts + more| - 1] == parts + more[..k];
    }
  }

  /** One part: a range sets its bits in a loop, a number at most one. */
  method ParsePart(part: string, maxVal: nat) returns (bits: Option<set<nat>>)
    ensures bits == PartBits(part, maxVal)
  {
    hide FromChars, Find;
    var k := Find(part, '-');
    if k == |part| {
      var v := FromChars(part);
      if v.None? { return None; }
      var none: set<nat> := {};
      NonNegative(part);
      var one := if v.value <= maxVal then {v.value as nat} else none;
      assert one == Range(v.value, v.value, maxVal);
      return Some(one);
    }
    var lo, hi := FromChars(part[..k]), FromChars(part[k + 1..]);
    if lo.None? || hi.None? { return None; }
    NonNegative(part[..k]);
    var run := SetRange(lo.value, hi.value, maxVal);
    return Some(run);
  }

  method SetRange(start: int, finish: int, maxVal: nat) returns (bits: set<nat>)
    requires start >= 0
    ensures bits == Range(start, finish, maxVal)
  {
    bits := {};
    var i := start;
    while i <= finish && i <= maxVal
      invariant start <= i && (i == start || (i <= maxVal + 1 && i <= finish + 1))
      invariant forall v: nat :: v in bits <==> start <= v < i
      decreases maxVal - i
    {
      bits := bits + {i as nat};
      i := i + 1;
    }
    assert bits == Range(start, finish, maxVal);
  }

  /** A text without a minus sign is not read as a negative number. */
  lemma {:induction false} NonNegative(s: string)
    requires Find(s, '-') == |s|
    ensures FromChars(s).Some? ==> FromChars(s).value >= 0
  {}

  /** fieldToString. */
  method FieldToString(bits: set<nat>, maxVal: nat) returns (s: string)
    ensures s == FieldText(bits, maxVal)
  {
    hide Show;
    var values: seq<nat> := if 0 in bits then [0] else [];
    for i := 1 to maxVal + 1
      invariant values == Values(bits, i - 1)
    {
      if i in bits { values := values + [i]; }
    }
    if |values| == maxVal + 1 { return "*"; }
    s := JoinValues(values);
  }

  method JoinValues(values: seq<nat>) returns (s: string)
    ensures s == Join(values)
  {
    hide Show;
    s := "";
    for i := 0 to |values|
      invariant s == Join(values[..i])
    {
      assert values[..i + 1] == values[..i] + [values[i]];
      JoinAppend(values[..i], values[i]);
      if i > 0 { s := s + ","; }
      s := s + Show(values[i]);
    }
    assert values[..|values|] == values;
  }

  lemma {:induction false} JoinAppend(vs: seq<nat>, v: nat)
    ensures Join(vs + [v]) == if vs == [] then Show(v) else Join(vs) + "," + Show(v)
  {
    if vs == [] {
    } else {
      assert (vs + [v])[1..] == vs[1..] + [v];
      JoinAppend(vs[1..], v);
      if |vs| > 1 {
        assert Show(vs[0]) + "," + (Join(vs[1..]) + "," + Show(v)) == Show(vs[0]) + "," + Join(vs[1..]) + "," + Show(v);
      }
    }
  }

  /** CronExpression::parse, with the loops above. */
  method ParseExpression(s: string) returns (r: Parsed)
    ensures r == Parse(s)
  {
    hide FieldBits, Words;
    var w := Words(s);
    if |w| < 5 { return TooFewFields; }
    var minutes := ParseField(w[0], 59);
    var hours := ParseField(w[1], 23);
    var days := ParseField(w[2], 31);
    var months := ParseField(w[3], 12);
    var weekdays := ParseField(w[4], 6);
    if minutes.None? || hours.None? || days.None? || months.None? || weekdays.None? { return Indeterminate; }
    r := Expression(Fields(minutes.value, hours.value, days.value, months.value, weekdays.value));
  }

  /** CronExpression::toString. */
  method ToText(c: Fields) returns (s: string)
    ensures s == Text(c)
  {
    hide FieldText;
    var minutes := FieldToString(c.minutes, 59);
    var hours := FieldToString(c.hours, 23);
    var days := FieldToString(c.daysOfMonth, 31);
    var months := FieldToString(c.months, 12);
    var weekdays := FieldToString(c.daysOfWeek, 6);
    s := minutes + " " + hours + " " + days + " " + months + " " + weekdays;
  }

  // What a field means

  /** The numbers a part names, whatever the size of the bit set. */
  predicate Names(part: string, v: nat) {
    var k := Find(part, '-');
    if k < |part| then
      var lo, hi := FromChars(part[..k]), FromChars(part[k + 1..]);
      lo.Some? && hi.Some? && lo.value <= v <= hi.value
    else FromChars(part) == Some(v)
  }

  lemma {:induction false} LastOrBefore(parts: seq<string>, v: nat)
    requires parts != []
    ensures var k := |parts| - 1;
            (exists p :: p in parts && Names(p, v)) <==>
              (exists p :: p in parts[..k] && Names(p, v)) || Names(parts[k], v)
  {
    hide Names;
    assert parts == parts[..|parts| - 1] + [parts[|parts| - 1]];
  }

  lemma {:induction false} UnionMeans(parts: seq<string>, maxVal: nat, v: nat)
    requires UnionOf(parts, maxVal).Some?
    ensures v in UnionOf(parts, maxVal).value <==> v <= maxVal && exists p :: p in parts && Names(p, v)
  {
    hide PartBits, Names;
    if parts == [] {
    } else {
      var k := |parts| - 1;
      UnionMeans(parts[..k], maxVal, v);
      PartMeans(parts[k], maxVal, v);
      LastOrBefore(parts, v);
    }
  }

  lemma {:induction false} PartMeans(part: string, maxVal: nat, v: nat)
    requires PartBits(part, maxVal).Some?
    ensures v in PartBits(part, maxVal).value <==> v <= maxVal && Names(part, v)
  {
    hide FromChars, Find;
  }

  /** A field sets a bit if and only if it is the star or one of its parts names that value. */
  lemma {:induction false} FieldMeans(field: string, maxVal: nat, v: nat)
    requires FieldBits(field, maxVal).Some?
    ensures v in FieldBits(field, maxVal).value <==>
      v <= maxVal && (field == "*" || exists p :: p in Parts(field) && Names(p, v))
  {
    hide UnionOf, Parts, Names;
    if field != "*" { UnionMeans(Parts(field), maxVal, v); }
  }

  lemma {:induction false} FieldInRange(field: string, maxVal: nat)
    requires FieldBits(field, maxVal).Some?
    ensures Within(FieldBits(field, maxVal).value, maxVal)
  {
    hide FieldBits;
    forall v | v in FieldBits(field, maxVal).value ensures v <= maxVal { FieldMeans(field, maxVal, v); }
  }

  lemma {:induction false} ParsedInRange(s: string)
    ensures Parse(s).Expression? ==> InRange(Parse(s).fields)
  {
    hide FieldBits, Words, Within;
    if Parse(s).Expression? {
      var w := Words(s);
      FieldInRange(w[0], 59);
      FieldInRange(w[1], 23);
      FieldInRange(w[2], 31);
      FieldInRange(w[3], 12);
      FieldInRange(w[4], 6);
    }
  }

  /** Whatever text an expression came from, printing it and parsing that again changes nothing. */
  lemma {:induction false} PrintedIsCanonical(s: string)
    ensures Parse(s).Expression? ==>
              Parse(Text(Parse(s).fields)) == if AllFieldsNonempty(Parse(s).fields) then Parse(s) else TooFewFields
  {
    hide Parse, Text, InRange, AllFieldsNonempty;
    ParsedInRange(s);
    if Parse(s).Expression? { RoundTrip(Parse(s).fields); }
  }

  lemma {:induction false} SinglePart(n: nat)
    ensures Parts(Show(n)) == [Show(n)]
  {
    hide Show, Parts;
    PartsOfJoin([n]);
    assert [n][1..] == [];
    assert ShowAll([]) == [];
  }

  lemma {:induction false} TooLargePart(n: nat, maxVal: nat)
    requires maxVal < n <= INT_MAX
    ensures PartBits(Show(n), maxVal) == Some({})
  {
    hide FromChars;
    NoSuchChar(Show(n), '-');
    FromCharsShow(n);
    assert Range(n, n, maxVal) == {};
  }

  lemma {:induction false} TooLargeNumber(n: nat, maxVal: nat)
    requires maxVal < n <= INT_MAX
    ensures FieldBits(Show(n), maxVal) == Some({}) && NoSpace(Show(n)) && Show(n) != ""
  {
    hide Show, Parts, PartBits, UnionOf;
    var s := Show(n);
    assert IsDigit(s[0]);
    SinglePart(n);
    TooLargePart(n, maxVal);
    StartOfField(s, maxVal);
    UnionAppend([], s, maxVal);
    assert [] + [s] == [s];
    var none: set<nat> := {};
    assert none + none == none;
  }

  /** The refused case occurs: a minute that is too large parses, to an expression that cannot be read back. */
  lemma {:induction false} TooLargeMinuteIsNotReadBack(n: nat)
    requires 59 < n <= INT_MAX
    ensures var c := Fields({}, Upto(23), Upto(31), Upto(12), Upto(6));
            && Parse(Show(n) + " " + "*" + " " + "*" + " " + "*" + " " + "*") == Expression(c)
            && Parse(Text(c)) == TooFewFields
  {
    hide FieldText, Words, Upto, Show;
    TooLargeNumber(n, 59);
    FiveWords(Show(n), "*", "*", "*", "*");
    hide FieldBits, Text;
    StarBits(23);
    StarBits(31);
    StarBits(12);
    StarBits(6);
    RoundTrip(Fields({}, Upto(23), Upto(31), Upto(12), Upto(6)));
  }

  lemma {:induction false} StarBits(maxVal: nat)
    ensures FieldBits("*", maxVal) == Some(Upto(maxVal))
  {}

  /** Each of five words decides its own field, in the order minute, hour, day, month, weekday. */
  lemma {:induction false} ParsesWordByWord(a: string, b: string, c: string, d: string, e: string)
    requires NoSpace(a) && NoSpace(b) && NoSpace(c) && NoSpace(d) && NoSpace(e)
    requires a != "" && b != "" && c != "" && d != "" && e != ""
    requires FieldBits(a, 59).Some? && FieldBits(b, 23).Some? && FieldBits(c, 31).Some?
    requires FieldBits(d, 12).Some? && FieldBits(e, 6).Some?
    ensures var p := Parse(a + " " + b + " " + c + " " + d + " " + e);
            && p.Expression?
            && p.fields.minutes == FieldBits(a, 59).value && p.fields.hours == FieldBits(b, 23).value
            && p.fields.daysOfMonth == FieldBits(c, 31).value && p.fields.months == FieldBits(d, 12).value
            && p.fields.daysOfWeek == FieldBits(e, 6).value
  {
    hide FieldBits, Words;
    FiveWords(a, b, c, d, e);
  }

  // The letters of the language

  /** Numbers below 100 are written with the usual one or two decimal digits. */
  lemma {:induction false} ShowTwoDigits(n: nat)
    requires n < 100
    ensures Show(n) == if n < 10 then [('0' as int + n) as char]
                       else [('0' as int + n / 10) as char, ('0' as int + n % 10) as char]
  {
    if n >= 10 { assert Show(n / 10) == [DigitChar(n / 10)]; }
  }

  lemma {:induction false} DigitsThen(s: string, rest: string)
    requires (forall i :: 0 <= i < |s| ==> IsDigit(s[i])) && (rest == "" || !IsDigit(rest[0]))
    ensures DigitPrefix(s + rest) == |s|
  {
    if s == [] {
      assert s + rest == rest;
    } else {
      assert (s + rest)[1..] == s[1..] + rest;
      DigitsThen(s[1..], rest);
    }
  }

  /** from_chars reads a decimal number with an optional minus sign up to the first other letter, if it fits into an int. */
  lemma {:induction false} FromCharsReads(negative: bool, n: nat, rest: string)
    requires rest == "" || !IsDigit(rest[0])
    ensures var v: int := if negative then -(n as int) else n;
            FromChars((if negative then "-" else "") + Show(n) + rest)
            == if -0x8000_0000 <= v <= 0x7fff_ffff then Some(v) else None
  {
    hide Show, Value;
    var s, sign := Show(n), if negative then "-" else "";
    var all, t := sign + s + rest, s + rest;
    assert IsDigit(s[0]) && t[0] == s[0];
    DigitsThen(s, rest);
    ShowReads(n);
    assert t[..|s|] == s;
    if negative {
      assert all == "-" + t && all[0] == '-' && all[1..] == t;
    } else {
      assert all == t;
    }
  }

  /** Without a digit after the optional minus sign nothing is read. */
  lemma {:induction false} FromCharsNeedsDigits(s: string)
    requires s == "" || (!IsDigit(s[0]) && (s[0] == '-' ==> |s| == 1 || !IsDigit(s[1])))
    ensures FromChars(s) == None
  {}

  /** White space is what isspace calls so in the C locale. */
  lemma {:induction false} SpacesAreSix(ch: char)
    ensures IsSpace(ch) <==> ch as int in {0x20, 0x09, 0x0a, 0x0b, 0x0c, 0x0d}
  {}

  /** Commas separate parts. */
  lemma {:induction false} CommaSeparates(a: string, b: string)
    requires forall i :: 0 <= i < |a| ==> a[i] != ','
    ensures Parts(a + "," + b) == [a] + Parts(b)
  {
    var s := a + ("," + b);
    assert a + "," + b == s;
    FindAfter(a, "," + b, ',');
    assert ("," + b)[0] == ',';
    assert s[..|a|] == a && s[|a| + 1..] == b;
  }

  /** A dash makes a range of the numbers on its two sides. */
  lemma {:induction false} DashMakesRange(lo: nat, hi: nat, maxVal: nat, v: nat)
    requires lo <= INT_MAX && hi <= INT_MAX
    ensures var bits := PartBits(Show(lo) + "-" + Show(hi), maxVal);
            bits.Some? && (v in bits.value <==> lo <= v <= hi && v <= maxVal)
  {
    hide Show, FromChars;
    var a, b := Show(lo), Show(hi);
    var s := a + ("-" + b);
    assert a + "-" + b == s;
    FindAfter(a, "-" + b, '-');
    assert ("-" + b)[0] == '-';
    assert s[..|a|] == a && s[|a| + 1..] == b;
    FromCharsShow(lo);
    FromCharsShow(hi);
  }

  /** The default expression is in range, and is read back from its printed form. */
  lemma {:induction false} DefaultRoundTrips()
    ensures InRange(Every()) && Parse(Text(Every())) == Expression(Every())
  {
    hide Parse, Text, Upto;
    var c := Every();
    assert 0 in c.minutes && 0 in c.hours && 1 in c.daysOfMonth && 1 in c.months && 0 in c.daysOfWeek;
    RoundTrip(c);
  }

  /** The fields are printed in their order with single blanks between them. */
  lemma {:induction false} PrintedWithBlanks(n: nat)
    requires n < 60
    ensures Text(Fields({n}, Upto(23), Upto(31), Upto(12), Upto(6))) == Show(n) + " * * * *"
  {
    hide FieldText, Upto, Show;
    StarExactlyIfAllSet(Upto(23), 23);
    StarExactlyIfAllSet(Upto(31), 31);
    StarExactlyIfAllSet(Upto(12), 12);
    StarExactlyIfAllSet(Upto(6), 6);
    OneValue({n}, n, 59);
    assert Show(n) + " " + "*" + " " + "*" + " " + "*" + " " + "*" == Show(n) + " * * * *";
  }

  lemma {:induction false} OneValue(bits: set<nat>, n: nat, maxVal: nat)
    requires bits == {n} && n <= maxVal && maxVal > 0
    ensures FieldText(bits, maxVal) == Show(n)
  {
    hide Show, FieldText;
    StarExactlyIfAllSet(bits, maxVal);
    var other: nat := if n == 0 then 1 else 0;
    assert other !in bits;
    ValuesAscend(bits, maxVal);
    var vs := Values(bits, maxVal);
    assert n in bits && n in vs;
    OnlyOne(vs, n);
  }

  lemma {:induction false} OnlyOne(vs: seq<nat>, n: nat)
    requires Ascending(vs) && n in vs && forall v :: v in vs ==> v == n
    ensures vs == [n]
  {
    assert vs[0] in vs && vs[|vs| - 1] in vs;
  }
}
