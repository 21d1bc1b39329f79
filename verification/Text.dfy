/** Text helpers shared by the models: concatenation of records, substring
    search, decimal printing and reading. */
module Text {

  datatype Option<+T> = None | Some(value: T)

  /** All pieces, one after the other. */
  function Flat<T>(pieces: seq<seq<T>>): seq<T> {
    if pieces == [] then [] else pieces[0] + Flat(pieces[1..])
  }

  lemma Assoc<T>(a: seq<T>, b: seq<T>, c: seq<T>)
    ensures (a + b) + c == a + (b + c)
  {
  }

  lemma DropDrop<T>(s: seq<T>, i: nat, j: nat)
    requires i + j <= |s|
    ensures s[i..][j..] == s[i + j..]
  {
  }

  lemma CutPrefix<T>(s: seq<T>, n: nat, pos: nat)
    requires n <= pos < |s|
    ensures s[..pos + 1] == s[..n] + s[n..pos + 1]
    ensures s[n..pos + 1] == s[n..pos] + [s[pos]]
  {
  }

  lemma DropAppend<T>(a: seq<T>, b: seq<T>, n: nat)
    requires n <= |a|
    ensures (a + b)[n..] == a[n..] + b
  {
  }

  lemma {:induction false} FlatAppend<T>(a: seq<seq<T>>, b: seq<seq<T>>)
    ensures Flat(a + b) == Flat(a) + Flat(b)
  {
    if a == [] {
      assert a + b == b;
    } else {
      assert (a + b)[1..] == a[1..] + b;
      FlatAppend(a[1..], b);
    }
  }

  lemma FlatCons<T>(x: seq<T>, a: seq<seq<T>>)
    ensures Flat([x] + a) == x + Flat(a)
  {
    assert ([x] + a)[1..] == a;
  }

  lemma FlatSnoc<T>(a: seq<seq<T>>, x: seq<T>)
    ensures Flat(a + [x]) == Flat(a) + x
  {
    FlatAppend(a, [x]);
    assert Flat([x]) == x + Flat<T>([x][1..]) == x;
  }

  /** Every group flattened on its own. */
  function FlatEach<T>(groups: seq<seq<seq<T>>>): (r: seq<seq<T>>)
    ensures |r| == |groups|
    ensures forall i | 0 <= i < |groups| :: r[i] == Flat(groups[i])
  {
    seq(|groups|, i requires 0 <= i < |groups| => Flat(groups[i]))
  }

  lemma FlatEachSnoc<T>(groups: seq<seq<seq<T>>>, g: seq<seq<T>>)
    ensures FlatEach(groups + [g]) == FlatEach(groups) + [Flat(g)]
  {
  }

  /** Flattening group by group loses nothing. */
  lemma {:induction false} FlatFlat<T>(groups: seq<seq<seq<T>>>)
    ensures Flat(FlatEach(groups)) == Flat(Flat(groups))
  {
    if groups != [] {
      FlatFlat(groups[1..]);
      assert FlatEach(groups)[1..] == FlatEach(groups[1..]);
      FlatAppend(groups[0], Flat(groups[1..]));
    }
  }

  /** `sep` occurs in `s` at position `i`. */
  predicate OccursAt(s: string, sep: string, i: nat) {
    i + |sep| <= |s| && s[i..i + |sep|] == sep
  }

  /** std::string::find: the least position at or after `from`. */
  function FindFrom(s: string, sep: string, from: nat): (r: Option<nat>)
    ensures r.Some? ==> from <= r.value && OccursAt(s, sep, r.value)
    ensures r.Some? ==> forall j: nat | from <= j < r.value :: !OccursAt(s, sep, j)
    ensures r.None? ==> forall j: nat | from <= j :: !OccursAt(s, sep, j)
    decreases |s| - from
  {
    if from + |sep| > |s| then None
    else if OccursAt(s, sep, from) then Some(from)
    else if from == |s| then None
    else FindFrom(s, sep, from + 1)
  }

  /** Prefix test. */
  predicate StartsWith(s: string, prefix: string) {
    OccursAt(s, prefix, 0)
  }

  // ---------------------------------------------------------------- decimals

  predicate IsDigit(c: char) { '0' <= c <= '9' }

  predicate AllDigits(s: string) { forall i | 0 <= i < |s| :: IsDigit(s[i]) }

  function DigitValue(c: char): (r: nat)
    requires IsDigit(c)
  {
    c as int - '0' as int
  }

  /** std::to_string on a non-negative number. */
  function Decimal(n: nat): (r: string)
    ensures r != [] && AllDigits(r)
  {
    var last := ('0' as int + n % 10) as char;
    if n < 10 then [last] else Decimal(n / 10) + [last]
  }

  /** The number a digit string spells. */
  function DigitsValue(s: string): nat
    requires AllDigits(s)
  {
    if s == [] then 0
    else 10 * DigitsValue(s[..|s| - 1]) + DigitValue(s[|s| - 1])
  }

  lemma {:induction false} DecimalValue(n: nat)
    ensures DigitsValue(Decimal(n)) == n
  {
    if n >= 10 {
      DecimalValue(n / 10);
      assert Decimal(n)[..|Decimal(n)| - 1] == Decimal(n / 10);
    } else {
      assert Decimal(n)[..|Decimal(n)| - 1] == [];
    }
  }

  lemma DigitPrints(d: nat)
    requires d < 10
    ensures ('0' as int + d) as char == "0123456789"[d]
  {
  }

  /** One decimal digit after the other. */
  lemma DecimalIs(m: nat, d: nat)
    requires d < 10
    ensures Decimal(10 * m + d) == (if m == 0 then "" else Decimal(m)) + ["0123456789"[d]]
  {
    var n := 10 * m + d;
    DigitPrints(d);
    assert n / 10 == m && n % 10 == d;
  }

  /** Different numbers print differently. */
  lemma DecimalInjective(a: nat, b: nat)
    requires Decimal(a) == Decimal(b)
    ensures a == b
  {
    DecimalValue(a);
    DecimalValue(b);
  }

  predicate IsSpace(c: char) {
    c == ' ' || c == '\t' || c == '\n' || c == '\r' || c == 11 as char || c == 12 as char
  }

  function SkipSpaces(s: string): (r: string)
    ensures |r| <= |s|
    ensures r != [] ==> !IsSpace(r[0])
  {
    if s != [] && IsSpace(s[0]) then SkipSpaces(s[1..]) else s
  }

  function LeadingDigits(s: string): (r: string)
    ensures AllDigits(r)
  {
    if s == [] || !IsDigit(s[0]) then [] else [s[0]] + LeadingDigits(s[1..])
  }

  /** atoi on values that fit an int: blanks, an optional sign, then digits. */
  function Atoi(s: string): int {
    var t := SkipSpaces(s);
    if t != [] && t[0] == '-' then 0 - DigitsValue(LeadingDigits(t[1..]))
    else if t != [] && t[0] == '+' then DigitsValue(LeadingDigits(t[1..]))
    else DigitsValue(LeadingDigits(t))
  }

  lemma {:induction false} LeadingDigitsOf(d: string, tail: string)
    requires AllDigits(d) && (tail != "" ==> !IsDigit(tail[0]))
    ensures LeadingDigits(d + tail) == d
  {
    if d == "" {
      assert d + tail == tail;
    } else {
      assert (d + tail)[1..] == d[1..] + tail;
      LeadingDigitsOf(d[1..], tail);
    }
  }

  /** atoi undoes std::to_string, also when something other than a digit follows. */
  lemma AtoiDecimal(n: nat, tail: string)
    requires tail != "" ==> !IsDigit(tail[0])
    ensures Atoi(Decimal(n) + tail) == n
  {
    var s := Decimal(n) + tail;
    assert s[0] == Decimal(n)[0];
    assert SkipSpaces(s) == s;
    LeadingDigitsOf(Decimal(n), tail);
    DecimalValue(n);
  }

  // ------------------------------------------------------------------ blanks

  /** Blank, tab, line feed, vertical tab, form feed and carriage return. */
  const BLANKS: string := [' ', '\t', '\n', 11 as char, 12 as char, '\r']

  predicate AllBlank(s: string) { forall i | 0 <= i < |s| :: s[i] in BLANKS }

  predicate NoBlank(s: string) { forall i | 0 <= i < |s| :: s[i] !in BLANKS }

  lemma SpaceIs(c: char)
    ensures IsSpace(c) <==> c in BLANKS
  {
    assert BLANKS[0] == ' ' && BLANKS[1] == '\t' && BLANKS[2] == '\n';
    assert BLANKS[3] == 11 as char && BLANKS[4] == 12 as char && BLANKS[5] == '\r';
  }

  lemma {:induction false} SkipSpacesOf(gap: string, s: string)
    requires AllBlank(gap) && (s != "" ==> s[0] !in BLANKS)
    ensures SkipSpaces(gap + s) == s
  {
    if gap == "" {
      assert gap + s == s;
      if s != "" {
        SpaceIs(s[0]);
      }
    } else {
      assert (gap + s)[1..] == gap[1..] + s;
      SpaceIs(gap[0]);
      SkipSpacesOf(gap[1..], s);
    }
  }

  lemma DigitIs(c: char)
    ensures IsDigit(c) <==> c in "0123456789"
  {
    var digits := "0123456789";
    assert forall i | 0 <= i < 10 :: digits[i] == '0' + i as char;
    if IsDigit(c) {
      assert digits[DigitValue(c)] == c;
    }
  }

  lemma NumberInFront(n: nat, tail: string)
    requires tail != "" ==> tail[0] !in "0123456789"
    ensures var number := Decimal(n) + tail;
            && number != "" && IsDigit(number[0]) && number[0] !in BLANKS
            && DigitsValue(LeadingDigits(number)) == n
  {
    var number := Decimal(n) + tail;
    assert number[0] == Decimal(n)[0];
    SpaceIs(number[0]);
    if tail != "" {
      DigitIs(tail[0]);
    }
    LeadingDigitsOf(Decimal(n), tail);
    DecimalValue(n);
  }

  lemma AtoiBehind(s: string, t: string, sign: string, number: string)
    requires SkipSpaces(s) == t && t == sign + number && number != "" && IsDigit(number[0])
    requires sign == "" || sign == "+" || sign == "-"
    ensures Atoi(s) == if sign == "-" then 0 - DigitsValue(LeadingDigits(number)) else DigitsValue(LeadingDigits(number))
  {
    if sign == "" {
      assert t == number;
    } else {
      assert t[0] == sign[0] && t[1..] == number;
    }
  }

  /** atoi reads a decimal number behind any blanks and one sign. */
  lemma AtoiReads(gap: string, sign: string, n: nat, tail: string)
    requires AllBlank(gap) && (sign == "" || sign == "+" || sign == "-")
    requires tail != "" ==> tail[0] !in "0123456789"
    ensures Atoi(gap + (sign + (Decimal(n) + tail))) == if sign == "-" then 0 - n else n
  {
    var number := Decimal(n) + tail;
    NumberInFront(n, tail);
    var signed := sign + number;
    SpaceIs(signed[0]);
    SkipSpacesOf(gap, signed);
    AtoiBehind(gap + signed, signed, sign, number);
  }
}
