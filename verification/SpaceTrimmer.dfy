/** http/cgi/include/m_string.h and byte_order_generic.h: finding the end of a
    string without its trailing spaces, a word at a time. */
module SpaceTrimmer {

  type byte = x: int | 0 <= x < 256

  const SPACE: byte := 0x20

  predicate AllSpaces(s: seq<byte>) { forall i | 0 <= i < |s| :: s[i] == SPACE }

  /** The length left when spaces are dropped from the end one by one. */
  function TrimEnd(s: seq<byte>): (n: nat)
    ensures n <= |s|
  {
    if s != [] && s[|s| - 1] == SPACE then TrimEnd(s[..|s| - 1]) else |s|
  }

  /** The one length such that only spaces follow and no space is last. */
  lemma {:induction false} TrimEndIs(s: seq<byte>, n: nat)
    requires n <= |s|
    ensures n == TrimEnd(s) <==> AllSpaces(s[n..]) && (n == 0 || s[n - 1] != SPACE)
  {
    if s != [] && s[|s| - 1] == SPACE {
      var t := s[..|s| - 1];
      if n <= |t| {
        TrimEndIs(t, n);
        assert s[n..] == t[n..] + [SPACE];
        assert forall i | 0 <= i < |t[n..]| :: t[n..][i] == s[n..][i];
      }
    } else if n < |s| {
      assert s[n..][|s| - 1 - n] == s[|s| - 1];
    }
  }

  // -------------------------------------------------------- the 8-byte variant

  /** Four bytes, least significant first, in 32-bit arithmetic. */
  function Low32(a: seq<byte>): nat
    requires |a| == 4
  {
    (a[0] as int + a[1] as int * 0x100 + a[2] as int * 0x1_0000 + a[3] as int * 0x100_0000) % 0x1_0000_0000
  }

  /** Eight bytes, least significant first, in 64-bit arithmetic. */
  function Uint8korr(a: seq<byte>): nat
    requires |a| == 8
  {
    (Low32(a[..4]) + Low32(a[4..]) * 0x1_0000_0000) % 0x1_0000_0000_0000_0000
  }

  lemma LastDigit(p: int, x: int, q: int, y: int)
    requires 0 <= x < 256 && 0 <= y < 256 && p * 256 + x == q * 256 + y
    ensures p == q && x == y
  {
  }

  lemma FourDigits(a: int, b: int, c: int, d: int)
    requires 0 <= a < 256 && 0 <= b < 256 && 0 <= c < 256 && 0 <= d < 256
    ensures 0 <= a + b * 0x100 + c * 0x1_0000 + d * 0x100_0000 < 0x1_0000_0000
    ensures a + b * 0x100 + c * 0x1_0000 + d * 0x100_0000 == 0x2020_2020 <==> a == b == c == d == 0x20
  {
    if a + b * 0x100 + c * 0x1_0000 + d * 0x100_0000 == 0x2020_2020 {
      LastDigit(b + c * 0x100 + d * 0x1_0000, a, 0x20_2020, 0x20);
      LastDigit(c + d * 0x100, b, 0x2020, 0x20);
      LastDigit(d, c, 0x20, 0x20);
    }
  }

  lemma Low32IsSpaces(a: seq<byte>)
    requires |a| == 4
    ensures Low32(a) == 0x2020_2020 <==> AllSpaces(a)
  {
    FourDigits(a[0] as int, a[1] as int, a[2] as int, a[3] as int);
    assert AllSpaces(a) <==> a[0] == a[1] == a[2] == a[3] == SPACE;
  }

  lemma Uint8korrIsSpaces(a: seq<byte>)
    requires |a| == 8
    ensures Uint8korr(a) == 0x2020_2020_2020_2020 <==> AllSpaces(a)
  {
    var lo, hi := Low32(a[..4]), Low32(a[4..]);
    Low32IsSpaces(a[..4]);
    Low32IsSpaces(a[4..]);
    assert lo + hi * 0x1_0000_0000 == 0x2020_2020_2020_2020 <==> lo == 0x2020_2020 && hi == 0x2020_2020;
    assert a == a[..4] + a[4..];
  }

  /** The last loop of both variants, which is also the simple trimmer. */
  method TrimBytes(s: seq<byte>, start: nat) returns (end: nat)
    requires start <= |s| && AllSpaces(s[start..])
    ensures end == TrimEnd(s)
  {
    end := start;
    while end > 0 && s[end - 1] == SPACE
      invariant end <= start && AllSpaces(s[end..])
    {
      end := end - 1;
      assert s[end..] == [s[end]] + s[end + 1..];
    }
    TrimEndIs(s, end);
  }

  method SkipTrailingSpace(s: seq<byte>) returns (end: nat)
    ensures end == TrimEnd(s)
    ensures AllSpaces(s[end..]) && (end == 0 || s[end - 1] != SPACE)
  {
    end := |s|;
    while end >= 8
      invariant end <= |s| && AllSpaces(s[end..])
    {
      if Uint8korr(s[end - 8..end]) != 0x2020_2020_2020_2020 {
        break;
      }
      Uint8korrIsSpaces(s[end - 8..end]);
      assert s[end - 8..] == s[end - 8..end] + s[end..];
      end := end - 8;
    }
    end := TrimBytes(s, end);
    TrimEndIs(s, end);
  }

  // -------------------------------------------------- the aligned-word variant

  /** An aligned word, most significant byte first. */
  function Word(a: seq<byte>): nat {
    if a == [] then 0 else Word(a[..|a| - 1]) * 256 + a[|a| - 1]
  }

  /** The constant the source writes out for each word size. */
  function SpaceWord(size: nat): nat
    requires size == 4 || size == 8
  {
    if size == 4 then 0x2020_2020 else 0x2020_2020_2020_2020
  }

  function Spaces(n: nat): seq<byte> { seq(n, _ => SPACE) }

  lemma {:induction false} WordInjective(a: seq<byte>, b: seq<byte>)
    requires |a| == |b| && Word(a) == Word(b)
    ensures a == b
  {
    if a != [] {
      var x, y := a[|a| - 1], b[|b| - 1];
      LastDigit(Word(a[..|a| - 1]), x as int, Word(b[..|b| - 1]), y as int);
      WordInjective(a[..|a| - 1], b[..|b| - 1]);
      assert a == a[..|a| - 1] + [x] && b == b[..|b| - 1] + [y];
    }
  }

  lemma SpacesSnoc(n: nat)
    ensures Word(Spaces(n + 1)) == Word(Spaces(n)) * 256 + 0x20
  {
    assert Spaces(n + 1)[..n] == Spaces(n);
  }

  lemma WordOfSpaces(size: nat)
    requires size == 4 || size == 8
    ensures Word(Spaces(size)) == SpaceWord(size)
  {
    assert Word(Spaces(0)) == 0;
    SpacesSnoc(0);
    SpacesSnoc(1);
    SpacesSnoc(2);
    SpacesSnoc(3);
    SpacesSnoc(4);
    SpacesSnoc(5);
    SpacesSnoc(6);
    SpacesSnoc(7);
  }

  lemma WordIsSpaces(a: seq<byte>)
    requires |a| == 4 || |a| == 8
    ensures Word(a) == SpaceWord(|a|) <==> AllSpaces(a)
  {
    WordOfSpaces(|a|);
    if Word(a) == SpaceWord(|a|) {
      WordInjective(a, Spaces(|a|));
    } else {
      assert a != Spaces(|a|);
    }
  }

  function Multiple(q: nat, size: nat): nat
    requires size == 4 || size == 8
  {
    if size == 4 then 4 * q else 8 * q
  }

  /** A word boundary. */
  ghost predicate Aligned(x: nat, size: nat)
    requires size == 4 || size == 8
  {
    exists q: nat :: x == Multiple(q, size)
  }

  /** The last word boundary that is not above x. */
  function RoundDown(x: nat, size: nat): (r: nat)
    requires size == 4 || size == 8
    ensures r <= x < r + size && Aligned(r, size)
  {
    if size == 4 then Multiple(x / 4, 4) else Multiple(x / 8, 8)
  }

  /** Two different word boundaries are at least a word apart. */
  lemma WordsApart(a: nat, b: nat, size: nat)
    requires (size == 4 || size == 8) && Aligned(a, size) && Aligned(b, size) && a > b
    ensures a - size >= b && Aligned(a - size, size)
  {
    var p: nat :| a == Multiple(p, size);
    var q: nat :| b == Multiple(q, size);
    assert p > q;
    assert a - size == Multiple(p - 1, size);
  }

  /** One more word of spaces. */
  lemma SpacesBefore(s: seq<byte>, end: nat, size: nat)
    requires (size == 4 || size == 8) && size <= end <= |s|
    requires AllSpaces(s[end..]) && Word(s[end - size..end]) == SpaceWord(size)
    ensures AllSpaces(s[end - size..])
  {
    WordIsSpaces(s[end - size..end]);
    assert s[end - size..] == s[end - size..end] + s[end..];
  }

  /** The word loop, between two word boundaries. */
  method TrimWords(s: seq<byte>, address: nat, size: nat, startWords: nat, endWords: nat) returns (end: nat)
    requires size == 4 || size == 8
    requires startWords < endWords <= |s| && AllSpaces(s[endWords..])
    requires Aligned(address + startWords, size) && Aligned(address + endWords, size)
    ensures startWords <= end <= endWords && AllSpaces(s[end..])
  {
    end := endWords;
    WordsApart(address + end, address + startWords, size);
    while end > startWords && Word(s[end - size..end]) == SpaceWord(size)
      invariant startWords <= end <= endWords && AllSpaces(s[end..])
      invariant Aligned(address + end, size)
      invariant end > startWords ==> end - size >= startWords
    {
      SpacesBefore(s, end, size);
      WordsApart(address + end, address + startWords, size);
      end := end - size;
      if end > startWords {
        WordsApart(address + end, address + startWords, size);
      }
    }
  }

  /** `address` is where the string starts in memory; words are read at
      addresses that are multiples of their size. */
  method SkipTrailingSpaceAligned(s: seq<byte>, address: nat, size: nat) returns (end: nat)
    requires size == 4 || size == 8
    ensures end == TrimEnd(s)
    ensures AllSpaces(s[end..]) && (end == 0 || s[end - 1] != SPACE)
  {
    end := |s|;
    if |s| > 20 {
      var endWords := RoundDown(address + |s|, size) - address;
      var startWords := RoundDown(address + size - 1, size) - address;
      assert 0 < endWords <= |s| && 0 <= startWords;
      while end > endWords && s[end - 1] == SPACE
        invariant endWords <= end <= |s| && AllSpaces(s[end..])
      {
        end := end - 1;
        assert s[end..] == [s[end]] + s[end + 1..];
      }
      if s[end - 1] == SPACE && startWords < endWords {
        end := TrimWords(s, address, size, startWords, endWords);
      }
    }
    end := TrimBytes(s, end);
    TrimEndIs(s, end);
  }
}
