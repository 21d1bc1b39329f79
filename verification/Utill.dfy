/** http/Utill.hpp: reading one line from a socket, whatever its line ending, and
    cutting a string at a separator. */
module Utill {
  import opened Text

  /** How a byte stream stops: the peer closed it, or the read fails. */
  datatype Ending = Eof | Failure

  /** A connected socket: the bytes still to be received, then its ending. */
  class Socket {
    var incoming: string
    const ending: Ending

    constructor (incoming: string, ending: Ending)
      ensures this.incoming == incoming && this.ending == ending
    {
      this.incoming, this.ending := incoming, ending;
    }

    /** recv of one byte; `ch` keeps its value when nothing arrives. */
    method Recv(ch: char) returns (s: int, got: char)
      modifies this`incoming
      ensures old(incoming) != "" ==> s == 1 && [got] + incoming == old(incoming)
      ensures old(incoming) == "" ==> s == (if ending.Eof? then 0 else -1) && got == ch && incoming == ""
    {
      if incoming == "" {
        return if ending.Eof? then 0 else -1, ch;
      }
      s, got := 1, incoming[0];
      incoming := incoming[1..];
    }

    /** recv of one byte with MSG_PEEK. */
    method Peek(ch: char) returns (got: char)
      ensures got == if incoming == "" then ch else incoming[0]
    {
      got := if incoming == "" then ch else incoming[0];
    }
  }

  /** What one call of ReadLine takes from a stream. */
  datatype Taken = Line(text: string, rest: string) | NoLine(partial: string)

  function NextLine(s: string): (r: Taken)
    ensures r.Line? ==> r.text != "" && |r.rest| < |s|
  {
    if s == "" then NoLine("")
    else if s[0] == '\n' then Line("\n", s[1..])
    else if s[0] == '\r' then Line("\n", if |s| > 1 && s[1] == '\n' then s[2..] else s[1..])
    else
      match NextLine(s[1..])
      case Line(text, rest) => Line([s[0]] + text, rest)
      case NoLine(partial) => NoLine([s[0]] + partial)
  }

  /** What a read has collected once `front` is put before it. */
  function Prefixed(front: string, t: Taken): Taken {
    match t
    case Line(text, rest) => Line(front + text, rest)
    case NoLine(partial) => NoLine(front + partial)
  }

  lemma TakeOrdinary(front: string, s: string)
    requires s != "" && s[0] != '\n' && s[0] != '\r'
    ensures Prefixed(front, NextLine(s)) == Prefixed(front + [s[0]], NextLine(s[1..]))
  {
    match NextLine(s[1..])
    case Line(text, _) => Assoc(front, [s[0]], text);
    case NoLine(partial) => Assoc(front, [s[0]], partial);
  }

  lemma TakeNothing(front: string)
    ensures Prefixed(front, NextLine("")) == NoLine(front)
  {
    assert front + "" == front;
  }

  /** Appends one line to `out`; positive on success, 0 at end of stream, -1 on
      error. The number is the length of the whole string, and that of the line
      read only if the string was empty, as it is in all callers. */
  method ReadLine(sock: Socket, out: string) returns (n: int, line: string)
    modifies sock
    ensures match NextLine(old(sock.incoming))
            case Line(text, rest) =>
              && n == |line| > 0 && line == out + text && sock.incoming == rest
              && (n == |text| <==> out == "")
            case NoLine(partial) =>
              && n == (if sock.ending.Eof? then 0 else -1)
              && line == out + partial && sock.incoming == ""
  {
    line := out;
    var ch := 'X';
    ghost var goal := Prefixed(out, NextLine(sock.incoming));
    while ch != '\n'
      invariant ch != '\n' ==> Prefixed(line, NextLine(sock.incoming)) == goal
      invariant ch == '\n' ==> Line(line, sock.incoming) == goal && line != ""
      decreases ch != '\n', |sock.incoming|
    {
      ghost var before := sock.incoming;
      var s;
      s, ch := sock.Recv(ch);
      if s > 0 {
        assert before[0] == ch && before[1..] == sock.incoming;
        if ch == '\r' {
          ch := sock.Peek(ch);
          if ch == '\n' {
            s, ch := sock.Recv(ch);
            assert sock.incoming == before[2..];
          } else {
            ch := '\n';
          }
        } else if ch != '\n' {
          TakeOrdinary(line, before);
        }
        line := line + [ch];
      } else {
        TakeNothing(line);
        if s == 0 {
          return 0, line;
        } else {
          return -1, line;
        }
      }
    }
    return |line|, line;
  }

  /** Reading a line of two characters behind two others reports four. */
  method CountsOldText() returns (n: int, line: string)
    ensures n == 4 && line == "abc\n"
  {
    var sock := new Socket("c\n", Eof);
    TakeOrdinary("", "c\n");
    assert NextLine("c\n") == Line("c\n", "");
    n, line := ReadLine(sock, "ab");
  }

  // ------------------------------------------------------------ normalisation

  /** The text with every CRLF, LF and lone CR turned into LF. */
  function Normalise(s: string): string {
    if s == "" then ""
    else if s[0] == '\r' then
      ['\n'] + Normalise(if |s| > 1 && s[1] == '\n' then s[2..] else s[1..])
    else [s[0]] + Normalise(s[1..])
  }

  /** A CRLF straddles this cut. */
  predicate CutsCrLf(front: string, back: string) {
    front != "" && back != "" && front[|front| - 1] == '\r' && back[0] == '\n'
  }

  /** How many bytes the next character of the normal form stands for. */
  function FirstWidth(s: string): (k: nat)
    requires s != ""
    ensures 1 <= k <= |s|
  {
    if s[0] == '\r' && |s| > 1 && s[1] == '\n' then 2 else 1
  }

  lemma FirstWidthOf(a: string, b: string)
    requires a != "" && !CutsCrLf(a, b)
    ensures FirstWidth(a + b) == FirstWidth(a)
    ensures !CutsCrLf(a[FirstWidth(a)..], b)
    ensures (a + b)[FirstWidth(a)..] == a[FirstWidth(a)..] + b
  {
  }

  lemma {:induction false} NormaliseSplit(a: string, b: string)
    requires !CutsCrLf(a, b)
    ensures Normalise(a + b) == Normalise(a) + Normalise(b)
    decreases |a|
  {
    if a == "" {
      assert a + b == b;
    } else {
      FirstWidthOf(a, b);
      var k := FirstWidth(a);
      NormaliseSplit(a[k..], b);
      assert Normalise(a) == Normalise(a)[..1] + Normalise(a[k..]);
      assert Normalise(a + b) == Normalise(a)[..1] + Normalise(a[k..] + b);
      Assoc(Normalise(a)[..1], Normalise(a[k..]), Normalise(b));
    }
  }

  /** One line: its only LF is its last character, and there is no CR. */
  predicate IsLine(text: string) {
    && text != "" && text[|text| - 1] == '\n'
    && (forall i | 0 <= i < |text| - 1 :: text[i] != '\n')
    && (forall i | 0 <= i < |text| :: text[i] != '\r')
  }

  /** What a successful read consumed. */
  function Used(s: string, rest: string): string
    requires |rest| <= |s|
  {
    s[..|s| - |rest|]
  }

  /** A successful read takes a piece of the stream that does not end inside a
      CRLF, and hands out that piece's normal form, which is one line. */
  ghost predicate TakesOneLine(s: string, text: string, rest: string) {
    && |rest| <= |s|
    && IsLine(text)
    && s == Used(s, rest) + rest
    && !CutsCrLf(Used(s, rest), rest)
    && Normalise(Used(s, rest)) == text
  }

  lemma ExtendLine(c: char, s: string, text: string, rest: string)
    requires c != '\r' && c != '\n' && TakesOneLine(s, text, rest)
    ensures TakesOneLine([c] + s, [c] + text, rest)
  {
    assert Used([c] + s, rest) == [c] + Used(s, rest);
    assert Used([c] + s, rest)[1..] == Used(s, rest);
    assert Used(s, rest) != "";
  }

  /** A line end at the front of a stream: how many bytes it is, or none. */
  function EndWidth(s: string): (k: nat)
    ensures k <= |s|
  {
    if s == "" || (s[0] != '\n' && s[0] != '\r') then 0 else FirstWidth(s)
  }

  lemma NormaliseEnd(s: string)
    requires EndWidth(s) > 0
    ensures Normalise(s[..EndWidth(s)]) == ['\n']
  {
    var e := s[..EndWidth(s)];
    var back := if |e| > 1 then e[2..] else e[1..];
    assert Normalise(e) == ['\n'] + Normalise(back) && back == "";
  }

  lemma EndIsLine(s: string)
    requires EndWidth(s) > 0
    ensures NextLine(s) == Line("\n", s[EndWidth(s)..])
    ensures TakesOneLine(s, "\n", s[EndWidth(s)..])
  {
    var k := EndWidth(s);
    NormaliseEnd(s);
    assert Used(s, s[k..]) == s[..k] && s[..k] + s[k..] == s;
    assert !CutsCrLf(s[..k], s[k..]);
    assert IsLine("\n");
  }

  lemma {:induction false} LineIsNormalForm(s: string)
    requires NextLine(s).Line?
    ensures TakesOneLine(s, NextLine(s).text, NextLine(s).rest)
  {
    if EndWidth(s) > 0 {
      EndIsLine(s);
    } else {
      var t := NextLine(s[1..]);
      LineIsNormalForm(s[1..]);
      ExtendLine(s[0], s[1..], t.text, t.rest);
      assert [s[0]] + s[1..] == s;
      assert NextLine(s) == Line([s[0]] + t.text, t.rest);
    }
  }

  predicate HasLineEnd(s: string) { '\n' in s || '\r' in s }

  /** A read fails exactly on a stream without any CR or LF; in particular a
      lone CR at the end of the stream still ends a line. */
  lemma {:induction false} NoLineExactly(s: string)
    ensures NextLine(s).NoLine? <==> !HasLineEnd(s)
    ensures NextLine(s).NoLine? ==> NextLine(s).partial == s
  {
    if s != "" && s[0] != '\n' && s[0] != '\r' {
      NoLineExactly(s[1..]);
      assert s == [s[0]] + s[1..];
    }
  }

  /** n calls of ReadLine, each on a cleared string, until one fails. */
  function ReadLines(n: nat, s: string): Option<(seq<string>, string)> {
    if n == 0 then Some(([], s))
    else
      match NextLine(s)
      case NoLine(_) => None
      case Line(text, rest) =>
        match ReadLines(n - 1, rest)
        case None => None
        case Some(r) => Some(([text] + r.0, r.1))
  }

  lemma UsedTwice(s: string, mid: string, rest: string)
    requires |rest| <= |mid| <= |s|
    requires s == Used(s, mid) + mid && mid == Used(mid, rest) + rest
    ensures s == Used(s, rest) + rest && Used(s, rest) == Used(s, mid) + Used(mid, rest)
  {
  }

  /** These lines are the normal form of what was consumed, and the rest of the
      stream normalises as if it had been read alone. */
  ghost predicate TakesLines(s: string, lines: seq<string>, rest: string) {
    && |rest| <= |s|
    && (forall i | 0 <= i < |lines| :: IsLine(lines[i]))
    && s == Used(s, rest) + rest
    && Normalise(Used(s, rest)) == Flat(lines)
    && Normalise(s) == Flat(lines) + Normalise(rest)
  }

  lemma TakeOneMore(s: string, text: string, mid: string, lines: seq<string>, rest: string)
    requires TakesOneLine(s, text, mid) && TakesLines(mid, lines, rest)
    ensures TakesLines(s, [text] + lines, rest)
  {
    UsedTwice(s, mid, rest);
    JoinReads(Used(s, mid), mid, Used(mid, rest));
    FlatCons(text, lines);
    Assoc(text, Flat(lines), Normalise(rest));
  }

  /** Any number of successful reads gives single lines that normalise the
      stream piece by piece. */
  lemma {:induction false} ReadsAreNormalForm(n: nat, s: string)
    requires ReadLines(n, s).Some?
    ensures |ReadLines(n, s).value.0| == n
    ensures TakesLines(s, ReadLines(n, s).value.0, ReadLines(n, s).value.1)
  {
    if n == 0 {
      assert Used(s, s) == "";
    } else {
      var t := NextLine(s);
      LineIsNormalForm(s);
      ReadsAreNormalForm(n - 1, t.rest);
      TakeOneMore(s, t.text, t.rest, ReadLines(n - 1, t.rest).value.0, ReadLines(n - 1, t.rest).value.1);
    }
  }

  lemma JoinReads(used: string, mid: string, more: string)
    requires !CutsCrLf(used, mid) && more <= mid
    ensures Normalise(used + more) == Normalise(used) + Normalise(more)
    ensures Normalise(used + mid) == Normalise(used) + Normalise(mid)
  {
    assert !CutsCrLf(used, more);
    NormaliseSplit(used, more);
    NormaliseSplit(used, mid);
  }

  // ------------------------------------------------------------------ cutting

  /** The text before and after the first separator. */
  function Cut(target: string, sep: string): (r: Option<(string, string)>)
    ensures r.Some? ==> target == r.value.0 + sep + r.value.1
    ensures r.None? <==> forall j: nat :: !OccursAt(target, sep, j)
  {
    match FindFrom(target, sep, 0)
    case None => None
    case Some(i) => Some((target[..i], target[i + |sep|..]))
  }

  /** The out-parameters keep their values when there is no separator. */
  method CutString(target: string, sub1: string, sub2: string, sep: string)
    returns (found: bool, out1: string, out2: string)
    ensures found <==> exists j: nat :: OccursAt(target, sep, j)
    ensures found ==> Cut(target, sep) == Some((out1, out2)) && target == out1 + sep + out2
    ensures found ==> forall j: nat | j < |out1| :: !OccursAt(target, sep, j)
    ensures !found ==> Cut(target, sep).None? && out1 == sub1 && out2 == sub2
  {
    var pos := FindFrom(target, sep, 0);
    if pos.Some? {
      return true, target[..pos.value], target[pos.value + |sep|..];
    }
    return false, sub1, sub2;
  }
}
