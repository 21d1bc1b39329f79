/** http/Protocol.hpp, the receiving half: what a byte stream says as a request
    (RFC 1945 section 5 and Appendix B), and the round trip from a request's
    parts through its encoding back to the parts. */
module RequestFraming {
  import opened Text
  import opened Utill

  const SEP: string := ": "
  const CONTENT_LENGTH: string := "Content-Length"

  // ------------------------------------------------------------------ reading

  /** The header lines up to the blank line, and what follows it. */
  function HeaderBlock(s: string): (r: Option<(seq<string>, string)>)
    ensures r.Some? ==> |r.value.1| < |s|
    decreases |s|
  {
    match NextLine(s)
    case NoLine(_) => None
    case Line(text, rest) =>
      if text == "\n" then Some(([], rest))
      else
        match HeaderBlock(rest)
        case None => None
        case Some(r) => Some(([text[..|text| - 1]] + r.0, r.1))
  }

  /** The next blank-separated word of the request line. */
  function NextWord(s: string): (r: (string, string))
    ensures |r.1| <= |s|
  {
    var t := SkipSpaces(s);
    var w := Word(t);
    (w, t[|w|..])
  }

  function Word(s: string): (r: string)
    ensures |r| <= |s|
  {
    if s == "" || IsSpace(s[0]) then "" else [s[0]] + Word(s[1..])
  }

  function ToUpper(s: string): (r: string)
    ensures |r| == |s|
  {
    seq(|s|, i requires 0 <= i < |s| => if 'a' <= s[i] <= 'z' then s[i] - 'a' + 'A' else s[i])
  }

  /** Method, URI and version of a request line. */
  function ParseLine(line: string): (string, string, string) {
    var m := NextWord(line);
    var u := NextWord(m.1);
    var v := NextWord(u.1);
    (ToUpper(m.0), u.0, v.0)
  }

  lemma {:induction false} WordOf(w: string, rest: string)
    requires NoBlank(w) && (rest != "" ==> rest[0] in BLANKS)
    ensures Word(w + rest) == w
  {
    if w == "" {
      assert w + rest == rest;
      if rest != "" {
        SpaceIs(rest[0]);
      }
    } else {
      assert (w + rest)[1..] == w[1..] + rest;
      SpaceIs(w[0]);
      WordOf(w[1..], rest);
    }
  }

  lemma NextWordOf(gap: string, w: string, rest: string)
    requires AllBlank(gap) && NoBlank(w) && (rest != "" ==> w != "" && rest[0] in BLANKS)
    ensures NextWord(gap + (w + rest)) == (w, rest)
  {
    SkipSpacesOf(gap, w + rest);
    WordOf(w, rest);
    assert (w + rest)[|w|..] == rest;
  }

  // ------------------------------------------------------- the request line

  /** The word in capitals, letter by letter. */
  predicate InCapitals(word: string, capitals: string) {
    && |word| == |capitals|
    && forall i | 0 <= i < |word| :: Capital(word[i], capitals[i])
  }

  predicate Capital(c: char, d: char) {
    if 'a' <= c <= 'z' then d as int == c as int - 32 else d == c
  }

  lemma ToUpperIs(word: string, capitals: string)
    ensures ToUpper(word) == capitals <==> InCapitals(word, capitals)
  {
    forall i | 0 <= i < |word| && |word| == |capitals|
      ensures Capital(word[i], capitals[i]) <==> ToUpper(word)[i] == capitals[i]
    {
      assert ToUpper(word)[i] as int == if 'a' <= word[i] <= 'z' then word[i] as int - 32 else word[i] as int;
    }
  }

  /** A line of two words with blanks around them and anything behind. Both words
      and everything behind them may be missing. */
  predicate TwoWords(line: string, gap0: string, word: string, gap1: string, uri: string, rest: string) {
    && line == gap0 + (word + (gap1 + (uri + rest)))
    && AllBlank(gap0) && NoBlank(word) && AllBlank(gap1) && NoBlank(uri)
    && (word == "" ==> gap1 + (uri + rest) == "")
    && (uri == "" ==> rest == "")
    && (uri != "" ==> gap1 != "")
    && (rest != "" ==> rest[0] in BLANKS)
  }

  /** The request line asks for this URI with this method, written in any case. */
  ghost predicate Asks(line: string, method_: string, uri: string) {
    exists gap0: string, word: string, gap1: string, rest: string ::
      TwoWords(line, gap0, word, gap1, uri, rest) && InCapitals(word, method_)
  }

  lemma ParseOfWords(line: string, gap0: string, word: string, gap1: string, uri: string, rest: string)
    requires TwoWords(line, gap0, word, gap1, uri, rest)
    ensures ParseLine(line).0 == ToUpper(word) && ParseLine(line).1 == uri
  {
    var tail := gap1 + (uri + rest);
    if tail != "" {
      assert gap1 != "";
      assert tail[0] == gap1[0];
    }
    NextWordOf(gap0, word, tail);
    NextWordOf(gap1, uri, rest);
  }

  /** A string is its blanks at the front, its next word and what follows. */
  lemma {:induction false} BlanksInFront(s: string) returns (gap: string)
    ensures s == gap + SkipSpaces(s) && AllBlank(gap)
    ensures SkipSpaces(s) != "" ==> SkipSpaces(s)[0] !in BLANKS
  {
    gap := "";
    if s != "" {
      SpaceIs(s[0]);
      if IsSpace(s[0]) {
        var g := BlanksInFront(s[1..]);
        gap := [s[0]] + g;
        Assoc([s[0]], g, SkipSpaces(s[1..]));
      }
    }
  }

  lemma {:induction false} WordInFront(s: string)
    ensures Word(s) <= s && NoBlank(Word(s))
    ensures |Word(s)| < |s| ==> s[|Word(s)|] in BLANKS
    ensures s != "" && s[0] !in BLANKS ==> Word(s) != ""
  {
    if s != "" {
      SpaceIs(s[0]);
      if !IsSpace(s[0]) {
        WordInFront(s[1..]);
        assert Word(s) == [s[0]] + Word(s[1..]);
      }
    }
  }

  lemma ThreeParts(s: string, gap: string, t: string, w: string)
    requires s == gap + t && w <= t
    ensures s == gap + (w + t[|w|..])
  {
    assert t == w + t[|w|..];
  }

  lemma NextWordSplits(s: string) returns (gap: string)
    ensures var n := NextWord(s);
            && s == gap + (n.0 + n.1) && AllBlank(gap) && NoBlank(n.0)
            && (n.1 != "" ==> n.0 != "" && n.1[0] in BLANKS)
  {
    gap := BlanksInFront(s);
    var t := SkipSpaces(s);
    WordInFront(t);
    ThreeParts(s, gap, t, Word(t));
  }

  /** Method and URI of any line, exactly: its first two words, the first one in
      capitals. */
  lemma AsksExactly(line: string, method_: string, uri: string)
    ensures Asks(line, method_, uri) <==> ParseLine(line).0 == method_ && ParseLine(line).1 == uri
  {
    var m := NextWord(line);
    var u := NextWord(m.1);
    var gap0 := NextWordSplits(line);
    var gap1 := NextWordSplits(m.1);
    assert TwoWords(line, gap0, m.0, gap1, u.0, u.1);
    ToUpperIs(m.0, method_);
    if Asks(line, method_, uri) {
      var g0: string, word: string, g1: string, rest: string :|
        TwoWords(line, g0, word, g1, uri, rest) && InCapitals(word, method_);
      ParseOfWords(line, g0, word, g1, uri, rest);
      ToUpperIs(word, method_);
    }
  }

  /** Parsing undoes printing a request line, for any blanks between the words
      and whatever the case of the method. */
  lemma ParseOfLine(m: string, gap1: string, u: string, gap2: string, v: string, capitals: string)
    requires m != "" && u != "" && v != "" && NoBlank(m) && NoBlank(u) && NoBlank(v)
    requires gap1 != "" && gap2 != "" && AllBlank(gap1) && AllBlank(gap2) && InCapitals(m, capitals)
    ensures ParseLine(m + (gap1 + (u + (gap2 + v)))) == (capitals, u, v)
  {
    ToUpperIs(m, capitals);
    var line := m + (gap1 + (u + (gap2 + v)));
    assert line == "" + line;
    NextWordOf("", m, gap1 + (u + (gap2 + v)));
    NextWordOf(gap1, u, gap2 + v);
    assert v == v + "";
    NextWordOf(gap2, v, "");
  }

  /** The value of the first header line with this key. */
  function FirstValue(headers: seq<string>, key: string): Option<string> {
    if headers == [] then None
    else
      match Cut(headers[0], SEP)
      case Some(kv) => if kv.0 == key then Some(kv.1) else FirstValue(headers[1..], key)
      case None => FirstValue(headers[1..], key)
  }

  lemma {:induction false} FirstValueSnoc(headers: seq<string>, last: string, key: string)
    ensures FirstValue(headers + [last], key)
            == if FirstValue(headers, key).Some? then FirstValue(headers, key) else FirstValue([last], key)
  {
    if headers == [] {
      assert headers + [last] == [last];
    } else {
      assert (headers + [last])[1..] == headers[1..] + [last];
      FirstValueSnoc(headers[1..], last, key);
    }
  }

  /** How many body bytes the request announces; only POST has a body. */
  function BodyLength(line: string, headers: seq<string>): int {
    if ParseLine(line).0 == "POST" && FirstValue(headers, CONTENT_LENGTH).Some?
    then Atoi(FirstValue(headers, CONTENT_LENGTH).value) else 0
  }

  datatype Request = Request(line: string, headers: seq<string>, body: string)

  /** The announced body is taken from what follows the blank line. A negative
      length never counts down to zero, so it fails like a stream that is too short. */
  function TakeBody(line: string, headers: seq<string>, s: string): Option<(Request, string)> {
    var n := BodyLength(line, headers);
    if 0 <= n <= |s| then Some((Request(line, headers, s[..n]), s[n..])) else None
  }

  /** Request line, header lines, and what follows the blank line. */
  function Head(s: string): Option<(string, seq<string>, string)> {
    match NextLine(s)
    case NoLine(_) => None
    case Line(text, rest) =>
      match HeaderBlock(rest)
      case None => None
      case Some(block) => Some((text[..|text| - 1], block.0, block.1))
  }

  /** A request and what the stream still holds after it. */
  function Receive(s: string): Option<(Request, string)> {
    match Head(s)
    case None => None
    case Some(h) => TakeBody(h.0, h.1, h.2)
  }

  // ----------------------------------------------------------------- encoding

  datatype LineEnd = LF | CRLF | CR

  function Bytes(e: LineEnd): string {
    match e
    case LF => "\n"
    case CRLF => "\r\n"
    case CR => "\r"
  }

  /** Free of line ends. */
  predicate Clean(s: string) {
    forall i | 0 <= i < |s| :: s[i] != '\r' && s[i] != '\n'
  }

  /** A lone CR would merge with a line feed that follows it. */
  predicate Separable(e: LineEnd, following: string) {
    e.CR? && following != "" ==> following[0] != '\n'
  }

  /** The header lines with their line ends, the blank line, then the rest. */
  function EncodeHeaders(headers: seq<string>, ends: seq<LineEnd>, blank: LineEnd, tail: string): string
    requires |ends| == |headers|
  {
    if headers == [] then Bytes(blank) + tail
    else headers[0] + (Bytes(ends[0]) + EncodeHeaders(headers[1..], ends[1..], blank, tail))
  }

  function Encode(r: Request, first: LineEnd, ends: seq<LineEnd>, blank: LineEnd, more: string): string
    requires |ends| == |r.headers|
  {
    r.line + (Bytes(first) + EncodeHeaders(r.headers, ends, blank, r.body + more))
  }

  /** No lone CR stands before a line feed. */
  predicate HeadersSeparable(headers: seq<string>, ends: seq<LineEnd>, blank: LineEnd, tail: string)
    requires |ends| == |headers|
  {
    if headers == [] then Separable(blank, tail)
    else
      && Separable(ends[0], EncodeHeaders(headers[1..], ends[1..], blank, tail))
      && HeadersSeparable(headers[1..], ends[1..], blank, tail)
  }

  predicate CleanHeaders(headers: seq<string>) {
    forall i | 0 <= i < |headers| :: headers[i] != "" && Clean(headers[i])
  }

  lemma NextLineOfEnd(e: LineEnd, following: string)
    requires Separable(e, following)
    ensures NextLine(Bytes(e) + following) == Line("\n", following)
  {
    var s := Bytes(e) + following;
    match e
    case LF => assert s[1..] == following;
    case CRLF => assert s[2..] == following;
    case CR => assert s[1..] == following;
  }

  lemma {:induction false} NextLineOf(text: string, e: LineEnd, following: string)
    requires Clean(text) && Separable(e, following)
    ensures NextLine(text + (Bytes(e) + following)) == Line(text + "\n", following)
  {
    var s := text + (Bytes(e) + following);
    if text == "" {
      assert s == Bytes(e) + following && "" + "\n" == "\n";
      NextLineOfEnd(e, following);
    } else {
      assert s[0] == text[0] && s[1..] == text[1..] + (Bytes(e) + following);
      NextLineOf(text[1..], e, following);
      assert [text[0]] + (text[1..] + "\n") == text + "\n";
    }
  }

  /** A lone CR and the line feed after it are read as one line end. */
  lemma NextLineMerged(text: string, following: string)
    requires Clean(text) && !Separable(CR, following)
    ensures NextLine(text + (Bytes(CR) + following)) == Line(text + "\n", following[1..])
  {
    NextLineOf(text, CRLF, following[1..]);
    assert Bytes(CR) + following == Bytes(CRLF) + following[1..];
  }

  /** Reading one header line off the front. */
  lemma HeaderBlockStep(h: string, e: LineEnd, following: string, rest: seq<string>, tail: string)
    requires Clean(h) && h != "" && Separable(e, following)
    ensures HeaderBlock(h + (Bytes(e) + following)) == Some(([h] + rest, tail))
            <==> HeaderBlock(following) == Some((rest, tail))
  {
    NextLineOf(h, e, following);
    assert (h + "\n")[..|h + "\n"| - 1] == h && |h + "\n"| > 1;
    match HeaderBlock(following)
    case None =>
    case Some(block) =>
      assert ([h] + block.0)[1..] == block.0 && ([h] + rest)[1..] == rest;
  }

  /** The end of a header block. */
  lemma BlankLineEnds(blank: LineEnd, tail: string)
    ensures HeaderBlock(Bytes(blank) + tail) == Some(([], tail)) <==> Separable(blank, tail)
  {
    assert "" + (Bytes(blank) + tail) == Bytes(blank) + tail && "" + "\n" == "\n";
    if Separable(blank, tail) {
      NextLineOf("", blank, tail);
    } else {
      NextLineMerged("", tail);
    }
  }

  /** The header block is recovered exactly when no lone CR merges. */
  lemma {:induction false} HeaderBlockOf(headers: seq<string>, ends: seq<LineEnd>, blank: LineEnd, tail: string)
    requires |ends| == |headers| && CleanHeaders(headers)
    ensures HeaderBlock(EncodeHeaders(headers, ends, blank, tail)) == Some((headers, tail))
            <==> HeadersSeparable(headers, ends, blank, tail)
  {
    if headers == [] {
      BlankLineEnds(blank, tail);
    } else {
      var h := headers[0];
      var following := EncodeHeaders(headers[1..], ends[1..], blank, tail);
      assert [h] + headers[1..] == headers;
      if Separable(ends[0], following) {
        HeaderBlockStep(h, ends[0], following, headers[1..], tail);
        HeaderBlockOf(headers[1..], ends[1..], blank, tail);
      } else {
        MergedHeader(h, headers[1..], ends[1..], blank, tail);
      }
    }
  }

  /** A header line whose CR merges with the blank line is never the last of a block. */
  lemma MergedHeader(h: string, headers: seq<string>, ends: seq<LineEnd>, blank: LineEnd, tail: string)
    requires |ends| == |headers| && CleanHeaders(headers) && Clean(h) && h != ""
    requires !Separable(CR, EncodeHeaders(headers, ends, blank, tail))
    ensures HeaderBlock(h + (Bytes(CR) + EncodeHeaders(headers, ends, blank, tail))) != Some(([h] + headers, tail))
  {
    NextLineMerged(h, EncodeHeaders(headers, ends, blank, tail));
    MergedBlockIsShort(headers, ends, blank, tail);
    assert |h + "\n"| > 1;
  }

  lemma MergedBlockIsShort(headers: seq<string>, ends: seq<LineEnd>, blank: LineEnd, tail: string)
    requires |ends| == |headers| && CleanHeaders(headers)
    requires !Separable(CR, EncodeHeaders(headers, ends, blank, tail))
    ensures EncodeHeaders(headers, ends, blank, tail)[1..] == tail
  {
    assert headers == [];
  }

  /** The same for the request line and the header block together. */
  lemma HeadOfEncode(line: string, first: LineEnd, headers: seq<string>, ends: seq<LineEnd>, blank: LineEnd, tail: string)
    requires |ends| == |headers| && Clean(line) && CleanHeaders(headers)
    ensures var s := EncodeHeaders(headers, ends, blank, tail);
            Head(line + (Bytes(first) + s)) == Some((line, headers, tail))
            <==> Separable(first, s) && HeadersSeparable(headers, ends, blank, tail)
  {
    var s := EncodeHeaders(headers, ends, blank, tail);
    assert (line + "\n")[..|line + "\n"| - 1] == line;
    if Separable(first, s) {
      NextLineOf(line, first, s);
      HeaderBlockOf(headers, ends, blank, tail);
    } else {
      NextLineMerged(line, s);
      MergedBlockIsShort(headers, ends, blank, tail);
    }
  }

  /** A request is received exactly when its head is and its body follows. */
  lemma ReceiveIsHead(s: string, r: Request, more: string)
    requires BodyLength(r.line, r.headers) == |r.body|
    ensures Receive(s) == Some((r, more)) <==> Head(s) == Some((r.line, r.headers, r.body + more))
  {
    var tail := r.body + more;
    assert tail[..|r.body|] == r.body && tail[|r.body|..] == more;
    if Receive(s) == Some((r, more)) {
      var h := Head(s).value;
      assert h.2 == h.2[..|r.body|] + h.2[|r.body|..];
    }
  }

  /** Reading the encoding gives back the parts and leaves exactly the bytes
      that came after the request, whatever mix of line ends was used, if and
      only if no lone CR stands before a line feed. */
  lemma ReceiveOfEncode(r: Request, first: LineEnd, ends: seq<LineEnd>, blank: LineEnd, more: string)
    requires |ends| == |r.headers| && Clean(r.line) && CleanHeaders(r.headers)
    requires BodyLength(r.line, r.headers) == |r.body|
    ensures Receive(Encode(r, first, ends, blank, more)) == Some((r, more))
            <==> && Separable(first, EncodeHeaders(r.headers, ends, blank, r.body + more))
                 && HeadersSeparable(r.headers, ends, blank, r.body + more)
  {
    HeadOfEncode(r.line, first, r.headers, ends, blank, r.body + more);
    ReceiveIsHead(Encode(r, first, ends, blank, more), r, more);
  }

  /** Such a request: its line ends with CR, and the blank line with LF. The two
      are read as one line end, and there is no blank line. */
  lemma LoneCrLosesRequest()
    ensures var r := Request("GET / HTTP/1.0", [], "");
            Encode(r, CR, [], LF, "") == "GET / HTTP/1.0\r\n" && Receive(Encode(r, CR, [], LF, "")).None?
  {
    var line := "GET / HTTP/1.0";
    assert line + (Bytes(CR) + (Bytes(LF) + "")) == "GET / HTTP/1.0\r\n";
    NextLineMerged(line, "\n");
    assert line + (Bytes(CR) + "\n") == "GET / HTTP/1.0\r\n";
  }

  /** And such a header block: its last line ends with CR. */
  lemma LoneCrLosesHeaders()
    ensures HeaderBlock(EncodeHeaders(["A: b"], [CR], LF, "")).None?
  {
    var e := EncodeHeaders([], [], LF, "");
    assert e == "\n" && ["A: b"][1..] == [] && [CR][1..] == [];
    NextLineMerged("A: b", e);
  }

  /** With CRLF and LF only, no lone CR can merge. */
  lemma {:induction false} CrLfAndLfSeparable(headers: seq<string>, ends: seq<LineEnd>, blank: LineEnd, tail: string)
    requires |ends| == |headers| && !blank.CR?
    requires forall i | 0 <= i < |headers| :: !ends[i].CR?
    ensures HeadersSeparable(headers, ends, blank, tail)
  {
    if headers != [] {
      CrLfAndLfSeparable(headers[1..], ends[1..], blank, tail);
    }
  }

  // ----------------------------------------------------- the announced length

  const LENGTH_PREFIX: string := "Content-Length: "

  /** A header line has a key exactly when it starts with the key, a colon and a
      blank. */
  lemma KeyOfLine(h: string, key: string)
    requires ':' !in key
    ensures StartsWith(h, key + ": ") <==> Cut(h, SEP).Some? && Cut(h, SEP).value.0 == key
    ensures StartsWith(h, key + ": ") ==> Cut(h, SEP).value.1 == h[|key| + 2..]
  {
    var n := |key|;
    if StartsWith(h, key + ": ") {
      assert h[0..n + 2] == key + ": ";
      assert h[n..n + 2] == h[0..n + 2][n..n + 2] == SEP;
      assert OccursAt(h, SEP, n);
      forall j: nat | j < n
        ensures !OccursAt(h, SEP, j)
      {
        assert h[j] == h[0..n + 2][j] == key[j] != ':';
        assert h[j..j + 2][0] == h[j] && SEP[0] == ':';
      }
      assert h[..n] == h[0..n + 2][..n] == key;
    }
    if Cut(h, SEP).Some? && Cut(h, SEP).value.0 == key {
      assert h == key + SEP + Cut(h, SEP).value.1;
      assert h[0..n + 2] == key + ": ";
    }
  }

  /** The first line with a key decides its value. */
  lemma {:induction false} FirstKeyWins(headers: seq<string>, i: nat, key: string, value: string)
    requires ':' !in key && i < |headers| && headers[i] == key + ": " + value
    requires forall j | 0 <= j < i :: !StartsWith(headers[j], key + ": ")
    ensures FirstValue(headers, key) == Some(value)
  {
    KeyOfLine(headers[0], key);
    if i == 0 {
      assert headers[0][0..|key| + 2] == key + ": ";
      assert headers[0][|key| + 2..] == value;
    } else {
      FirstKeyWins(headers[1..], i - 1, key, value);
    }
  }

  /** A key no line has. */
  lemma {:induction false} NoSuchKey(headers: seq<string>, key: string)
    requires ':' !in key && forall j | 0 <= j < |headers| :: !StartsWith(headers[j], key + ": ")
    ensures FirstValue(headers, key).None?
  {
    if headers != [] {
      KeyOfLine(headers[0], key);
      NoSuchKey(headers[1..], key);
    }
  }

  /** The first Content-Length line decides. */
  lemma FirstLengthWins(headers: seq<string>, i: nat, value: string)
    requires i < |headers| && headers[i] == "Content-Length: " + value
    requires forall j | 0 <= j < i :: !StartsWith(headers[j], "Content-Length: ")
    ensures FirstValue(headers, CONTENT_LENGTH) == Some(value)
  {
    assert CONTENT_LENGTH + ": " == "Content-Length: ";
    FirstKeyWins(headers, i, CONTENT_LENGTH, value);
  }

  lemma AnnouncedLength(r: Request, i: nat)
    requires ParseLine(r.line).0 == "POST"
    requires i < |r.headers| && r.headers[i] == LENGTH_PREFIX + Decimal(|r.body|)
    requires forall j | 0 <= j < i :: !StartsWith(r.headers[j], LENGTH_PREFIX)
    ensures BodyLength(r.line, r.headers) == |r.body|
  {
    FirstLengthWins(r.headers, i, Decimal(|r.body|));
    AtoiDecimal(|r.body|, "");
    assert Decimal(|r.body|) + "" == Decimal(|r.body|);
  }

  /** The round trip as a client sees it: a POST whose first Content-Length line
      carries the decimal length of its body, lines ended by any mix of CRLF and
      LF, is recovered exactly, and exactly its bytes are consumed. */
  lemma {:induction false} PostRoundTrip(r: Request, first: LineEnd, ends: seq<LineEnd>, blank: LineEnd,
                                         more: string, i: nat)
    requires |ends| == |r.headers| && Clean(r.line) && CleanHeaders(r.headers)
    requires !first.CR? && !blank.CR? && forall j | 0 <= j < |ends| :: !ends[j].CR?
    requires ParseLine(r.line).0 == "POST"
    requires i < |r.headers| && r.headers[i] == LENGTH_PREFIX + Decimal(|r.body|)
    requires forall j | 0 <= j < i :: !StartsWith(r.headers[j], LENGTH_PREFIX)
    ensures Receive(Encode(r, first, ends, blank, more)) == Some((r, more))
  {
    AnnouncedLength(r, i);
    CrLfAndLfSeparable(r.headers, ends, blank, r.body + more);
    ReceiveOfEncode(r, first, ends, blank, more);
  }

  /** Without a Content-Length line, or without POST, nothing behind the blank
      line is taken. */
  lemma {:induction false} BodylessRoundTrip(r: Request, first: LineEnd, ends: seq<LineEnd>, blank: LineEnd, more: string)
    requires |ends| == |r.headers| && Clean(r.line) && CleanHeaders(r.headers) && r.body == ""
    requires !first.CR? && !blank.CR? && forall j | 0 <= j < |ends| :: !ends[j].CR?
    requires ParseLine(r.line).0 != "POST" || forall j | 0 <= j < |r.headers| :: !StartsWith(r.headers[j], LENGTH_PREFIX)
    ensures Receive(Encode(r, first, ends, blank, more)) == Some((r, more))
  {
    if ParseLine(r.line).0 == "POST" {
      assert CONTENT_LENGTH + ": " == LENGTH_PREFIX;
      NoSuchKey(r.headers, CONTENT_LENGTH);
    }
    CrLfAndLfSeparable(r.headers, ends, blank, r.body + more);
    ReceiveOfEncode(r, first, ends, blank, more);
  }
}
