/** http/Protocol.hpp CallBack: one connection from the first byte to the last,
    and what a client reads for the bytes it sends. */
module CallBack {
  import opened Text
  import opened Utill
  import opened RequestFraming
  import opened Response
  import opened Protocol
  import S = CgiServer
  import X = CgiExchange

  /** The specified reply to a request, on the wire. */
  function AnswerToRequest(r: Request, site: Site, outcome: CgiOutcome, junk: int): string {
    var parsed := ParseLine(r.line);
    Wire(site, Respond(site, parsed.0, parsed.1, outcome, junk))
  }

  /** What a client may read in answer to these bytes: nothing when they spell no
      request, and otherwise the specified reply to it, with an outcome its child
      can have when it is killed, or when it is not. */
  ghost predicate Answers(incoming: string, site: Site, machine: S.Machine, junk: int, killed: bool, answer: string) {
    match Receive(incoming)
    case None => answer == ""
    case Some(r) => AnswersRequest(r.0, site, machine, junk, killed, answer)
  }

  ghost predicate AnswersRequest(r: Request, site: Site, machine: S.Machine, junk: int, killed: bool, answer: string) {
    exists outcome: CgiOutcome ::
      && MayComeOut(site, ParseLine(r.line).0, ParseLine(r.line).1, r.body, machine, killed, outcome)
      && answer == AnswerToRequest(r, site, outcome, junk)
  }

  lemma ThisAnswers(r: Request, site: Site, machine: S.Machine, junk: int, killed: bool, outcome: CgiOutcome)
    requires MayComeOut(site, ParseLine(r.line).0, ParseLine(r.line).1, r.body, machine, killed, outcome)
    ensures AnswersRequest(r, site, machine, junk, killed, AnswerToRequest(r, site, outcome, junk))
  {
  }

  /** Building and sending, for the request the object has received. */
  method Answer(ep: EndPoint, client: Client, site: Site, machine: S.Machine, ghost r: Request)
    returns (ghost killed: bool, ghost answer: string)
    requires S.Faithful(machine) && r == ep.Received()
    requires !ep.request.cgi && ep.request.queryString == "" && ep.response.Empty()
    requires (ep.request.method_, ep.request.uri, ep.request.version) == ParseLine(r.line)
    modifies client, ep.response, ep.request`path, ep.request`queryString, ep.request`cgi, ep.request`size,
             ep.request`suffix
    ensures AnswersRequest(r, site, machine, old(ep.request.size), killed, answer)
    ensures client.received == old(client.received) + answer
  {
    ghost var junk := ep.request.size;
    ghost var outcome;
    killed, outcome := ep.BuildAndSend(client, site, machine);
    answer := AnswerToRequest(r, site, outcome, junk);
    ThisAnswers(r, site, machine, junk, killed, outcome);
  }

  /** CallBack::HandlerRequest: whatever the bytes, the site, the machine and the
      scheduling, the client reads an answer to what it sent. */
  method HandlerRequest(sock: Socket, client: Client, site: Site, machine: S.Machine, junk: int)
    returns (ghost killed: bool, ghost answer: string)
    requires S.Faithful(machine)
    modifies sock, client
    ensures Answers(old(sock.incoming), site, machine, junk, killed, answer)
    ensures client.received == old(client.received) + answer
    ensures Receive(old(sock.incoming)).Some? ==> sock.incoming == Receive(old(sock.incoming)).value.1
  {
    var ep := new EndPoint(sock, junk);
    ep.RecvHttpRequest();
    killed, answer := false, "";
    if !ep.stop {
      killed, answer := Answer(ep, client, site, machine, ep.Received());
    }
  }

  // ------------------------------------------------------------- on the wire

  /** A reply with its two header lines. */
  function Framed(statusLine: string, desc: string, length: nat, body: string): string {
    statusLine
    + ("Content-Type: " + desc + "\r\n"
       + ("Content-Length: " + Decimal(length) + "\r\n"))
    + "\r\n" + body
  }

  /** A success with this file's type, the body's length and the body. */
  function SuccessWire(file: string, body: string): string {
    Framed("HTTP/1.0 200 OK\r\n", TypeOf(file), |body|, body)
  }

  /** An error with the site's error page, or without headers when there is none.
      A directory in the page's place is announced and not sent. */
  function ErrorWire(site: Site, code: StatusCode): string
    requires code != 200
  {
    if "wwwroot/404.html" !in site then ErrorLine(code) + "\r\n"
    else
      match site["wwwroot/404.html"]
      case File(page, _, readable) =>
        if readable then Framed(ErrorLine(code), "text/html", |page|, page) else ErrorLine(code) + "\r\n"
      case Dir(_, bytes) => Framed(ErrorLine(code), "text/html", bytes, "")
  }

  lemma HeadersOnWire(desc: string, length: nat)
    ensures Flat(WithEnds(Headers(desc, length)))
            == "Content-Type: " + desc + "\r\n" + ("Content-Length: " + Decimal(length) + "\r\n")
  {
    var w := WithEnds(Headers(desc, length));
    assert w == [] + [w[0]] + [w[1]];
    FlatSnoc([], w[0]);
    FlatSnoc([] + [w[0]], w[1]);
    assert "" + w[0] == w[0];
  }

  lemma FramedOnWire(site: Site, r: Reply, desc: string, length: nat)
    requires r.lines == Headers(desc, length)
    ensures Wire(site, r) == Framed(StatusLine(r.code), desc, length, SentBody(site, r))
  {
    HeadersOnWire(desc, length);
  }

  lemma SuccessOnWire(site: Site, file: string, size: int, output: string)
    ensures Wire(site, Reply(OK, Headers(Suffix2Desc(SuffixOf(file)), |output|), true, None, size, output))
            == SuccessWire(file, output)
  {
    TypeIs(file);
    OkLine();
    FramedOnWire(site, Reply(OK, Headers(TypeOf(file), |output|), true, None, size, output), TypeOf(file), |output|);
  }

  /** Nothing of the request is left in an error. */
  lemma ErrorOnWire(site: Site, code: StatusCode, size: int, body: string)
    requires code != OK
    ensures Wire(site, ErrorReply(site, code, size, body)) == ErrorWire(site, code)
  {
    var r := ErrorReply(site, code, size, body);
    StatusLineIs(code);
    if Opens(site, PAGE_404) {
      FramedOnWire(site, r, "text/html", site[PAGE_404].Size());
    } else {
      assert WithEnds([]) == [];
      assert ErrorLine(code) + "" == ErrorLine(code);
      assert ErrorLine(code) + "\r\n" + "" == ErrorLine(code) + "\r\n";
    }
  }

  lemma CgiServedOnWire(site: Site, path: string, node: Node, wantsCgi: bool, outcome: CgiOutcome)
    requires wantsCgi || node.executable
    ensures Wire(site, Serve(site, path, node, wantsCgi, outcome))
            == if outcome.code == OK then SuccessWire(path, outcome.output) else ErrorWire(site, outcome.code)
  {
    if outcome.code == OK {
      SuccessOnWire(site, path, node.Size(), outcome.output);
    } else {
      ErrorOnWire(site, outcome.code, node.Size(), outcome.output);
    }
  }

  /** What a GET without a query reads when no child is needed: the page, an error
      when it does not open, and nothing of a home page that is a directory. */
  function PageWire(site: Site, file: string, node: Node): string {
    if file !in site || (node.File? && !node.readable) then ErrorWire(site, 404)
    else
      match node
      case File(page, _, _) => SuccessWire(file, page)
      case Dir(_, bytes) => Framed("HTTP/1.0 200 OK\r\n", TypeOf(file), bytes, "")
  }

  lemma PageOnWire(site: Site, file: string, node: Node, outcome: CgiOutcome)
    requires !node.executable && (file in site ==> node == site[file])
    ensures Wire(site, Serve(site, file, node, false, outcome)) == PageWire(site, file, node)
  {
    var r := Serve(site, file, node, false, outcome);
    if Opens(site, file) {
      TypeIs(file);
      OkLine();
      FramedOnWire(site, r, TypeOf(file), node.Size());
    } else {
      ErrorOnWire(site, NOT_FOUND, node.Size(), "");
    }
  }

  // ---------------------------------------------------------- bytes to bytes

  /** A request and the line ends it is sent with: any mix of CRLF and LF. */
  predicate Sendable(r: Request, first: LineEnd, ends: seq<LineEnd>, blank: LineEnd) {
    && |ends| == |r.headers| && Clean(r.line) && CleanHeaders(r.headers)
    && !first.CR? && !blank.CR? && (forall j | 0 <= j < |ends| :: !ends[j].CR?)
    && BodyLength(r.line, r.headers) == |r.body|
  }

  /** Every encoded request is answered as its parts are. */
  lemma {:induction false} EncodedIsAnswered(
      r: Request, first: LineEnd, ends: seq<LineEnd>, blank: LineEnd, more: string,
      site: Site, machine: S.Machine, junk: int, killed: bool, answer: string)
    requires Sendable(r, first, ends, blank)
    ensures Answers(Encode(r, first, ends, blank, more), site, machine, junk, killed, answer)
            <==> AnswersRequest(r, site, machine, junk, killed, answer)
  {
    CrLfAndLfSeparable(r.headers, ends, blank, r.body + more);
    ReceiveOfEncode(r, first, ends, blank, more);
  }

  /** A request that needs no child has one answer. */
  lemma SettledIsAnswered(r: Request, site: Site, machine: S.Machine, junk: int, killed: bool, answer: string,
                          wire: string)
    requires !RunsCgi(site, ParseLine(r.line).0, ParseLine(r.line).1)
    requires forall outcome: CgiOutcome :: AnswerToRequest(r, site, outcome, junk) == wire
    ensures AnswersRequest(r, site, machine, junk, killed, answer) <==> answer == wire
  {
    ThisAnswers(r, site, machine, junk, killed, CgiOutcome(OK, ""));
  }

  /** From bytes to bytes, for every request line whose first word is neither GET
      nor POST, in any case: the bad-request reply. */
  lemma {:induction false} OtherMethodIsAnswered(
      r: Request, first: LineEnd, ends: seq<LineEnd>, blank: LineEnd, more: string, method_: string, uri: string,
      site: Site, machine: S.Machine, junk: int, killed: bool, answer: string)
    requires Sendable(r, first, ends, blank) && Asks(r.line, method_, uri)
    requires method_ != "GET" && method_ != "POST"
    ensures Answers(Encode(r, first, ends, blank, more), site, machine, junk, killed, answer)
            <==> answer == ErrorWire(site, 400)
  {
    EncodedIsAnswered(r, first, ends, blank, more, site, machine, junk, killed, answer);
    AsksExactly(r.line, method_, uri);
    ErrorOnWire(site, BAD_REQUEST, junk, "");
    SettledIsAnswered(r, site, machine, junk, killed, answer, ErrorWire(site, 400));
  }

  /** For every GET and POST of something the site does not have, with or without
      a query: the not-found reply. */
  lemma {:induction false} MissingIsAnswered(
      r: Request, first: LineEnd, ends: seq<LineEnd>, blank: LineEnd, more: string, method_: string, uri: string,
      path: string, query: string, wantsCgi: bool,
      site: Site, machine: S.Machine, junk: int, killed: bool, answer: string)
    requires Sendable(r, first, ends, blank) && Asks(r.line, method_, uri)
    requires (method_ == "GET" || method_ == "POST") && Splits(method_, uri, path, query, wantsCgi)
    requires Asked(path) !in site
    ensures Answers(Encode(r, first, ends, blank, more), site, machine, junk, killed, answer)
            <==> answer == ErrorWire(site, 404)
  {
    EncodedIsAnswered(r, first, ends, blank, more, site, machine, junk, killed, answer);
    AsksExactly(r.line, method_, uri);
    SplitsIs(method_, uri, path, query, wantsCgi);
    LocatedIs(path);
    ErrorOnWire(site, NOT_FOUND, junk, "");
    SettledIsAnswered(r, site, machine, junk, killed, answer, ErrorWire(site, 404));
  }

  lemma PageIsSettled(r: Request, uri: string, file: string, node: Node,
                      site: Site, machine: S.Machine, junk: int, killed: bool, answer: string)
    requires ParseLine(r.line).0 == "GET" && ParseLine(r.line).1 == uri
    requires '?' !in uri && LeadsTo(site, uri, file, node) && !node.executable
    ensures AnswersRequest(r, site, machine, junk, killed, answer) <==> answer == PageWire(site, file, node)
  {
    SplitsIs("GET", uri, uri, "", false);
    LeadsToIs(site, uri, file, node);
    forall outcome: CgiOutcome
      ensures AnswerToRequest(r, site, outcome, junk) == PageWire(site, file, node)
    {
      PageOnWire(site, file, node, outcome);
      assert Respond(site, "GET", uri, outcome, junk) == Serve(site, file, node, false, outcome);
    }
    SettledIsAnswered(r, site, machine, junk, killed, answer, PageWire(site, file, node));
  }

  /** For every GET without a query of something without executable bits: the page
      it leads to. */
  lemma {:induction false} PageIsAnswered(
      r: Request, first: LineEnd, ends: seq<LineEnd>, blank: LineEnd, more: string,
      uri: string, file: string, node: Node,
      site: Site, machine: S.Machine, junk: int, killed: bool, answer: string)
    requires Sendable(r, first, ends, blank) && Asks(r.line, "GET", uri)
    requires '?' !in uri && LeadsTo(site, uri, file, node) && !node.executable
    ensures Answers(Encode(r, first, ends, blank, more), site, machine, junk, killed, answer)
            <==> answer == PageWire(site, file, node)
  {
    EncodedIsAnswered(r, first, ends, blank, more, site, machine, junk, killed, answer);
    AsksExactly(r.line, "GET", uri);
    PageIsSettled(r, uri, file, node, site, machine, junk, killed, answer);
  }

  /** And word by word: a GET for a plain page, with any blanks between its words,
      any clean header lines and any mix of CRLF and LF, is answered with the
      success line, the two header lines and exactly the page. */
  lemma {:induction false} PlainGetIsAnswered(m: string, gap1: string, uri: string, gap2: string, version: string,
                           headers: seq<string>, first: LineEnd, ends: seq<LineEnd>, blank: LineEnd, more: string,
                           site: Site, path: string, machine: S.Machine, junk: int, killed: bool, answer: string)
    requires InCapitals(m, "GET") && NoBlank(m) && uri != "" && version != ""
    requires NoBlank(uri) && NoBlank(version) && gap1 != "" && gap2 != "" && AllBlank(gap1) && AllBlank(gap2)
    requires Clean(m + (gap1 + (uri + (gap2 + version)))) && CleanHeaders(headers) && |ends| == |headers|
    requires !first.CR? && !blank.CR? && forall j | 0 <= j < |ends| :: !ends[j].CR?
    requires '?' !in uri && PlainPage(site, path) && LeadsTo(site, uri, path, site[path])
    ensures var r := Request(m + (gap1 + (uri + (gap2 + version))), headers, "");
            Answers(Encode(r, first, ends, blank, more), site, machine, junk, killed, answer)
            <==> answer == SuccessWire(path, site[path].content)
  {
    var r := Request(m + (gap1 + (uri + (gap2 + version))), headers, "");
    assert m != "";
    ParseOfLine(m, gap1, uri, gap2, version, "GET");
    EncodedIsAnswered(r, first, ends, blank, more, site, machine, junk, killed, answer);
    PageIsSettled(r, uri, path, site[path], site, machine, junk, killed, answer);
  }

  // --------------------------------------------------------------------- CGI

  /** The answer to a CGI request whose child is not killed. */
  function ProgramAnswer(site: Site, bin: string, c: X.Config, query: string, body: string): string {
    if c.execs && c.program(query, body).1 == 0 then SuccessWire(bin, c.program(query, body).0)
    else ErrorWire(site, 400)
  }

  /** Every answer to a request that starts this call's child. */
  ghost predicate CallAnswers(site: Site, machine: S.Machine, call: CgiCall, killed: bool, answer: string) {
    match machine(call)
    case PipeFails => !killed && answer == ErrorWire(site, 500)
    case ForkFails => !killed && answer == ErrorWire(site, 404)
    case Started(c) =>
      if killed then answer == ErrorWire(site, 500)
      else S.EndsAlone(c) && answer == ProgramAnswer(site, call.bin, c, call.query, call.body)
  }

  /** From bytes to bytes for CGI, exactly: a POST, a GET with a query and a GET of
      something executable start the program they lead to with this method, query
      and body. When the child is not killed, the client reads the program's
      output on them, with its length, if it exits with zero, and the bad-request
      reply otherwise, provided the child ends by itself at all. The server-error
      reply comes exactly from a kill or a failed pipe. */
  lemma {:induction false} CgiIsAnswered(
      r: Request, first: LineEnd, ends: seq<LineEnd>, blank: LineEnd, more: string, method_: string, uri: string,
      path: string, query: string, wantsCgi: bool, bin: string, node: Node,
      site: Site, machine: S.Machine, junk: int, killed: bool, answer: string)
    requires Sendable(r, first, ends, blank) && S.Faithful(machine) && Asks(r.line, method_, uri)
    requires (method_ == "GET" || method_ == "POST") && Splits(method_, uri, path, query, wantsCgi)
    requires LeadsTo(site, path, bin, node) && (wantsCgi || node.executable)
    ensures Answers(Encode(r, first, ends, blank, more), site, machine, junk, killed, answer)
            <==> CallAnswers(site, machine, CgiCall(bin, method_, query, r.body), killed, answer)
  {
    EncodedIsAnswered(r, first, ends, blank, more, site, machine, junk, killed, answer);
    AsksExactly(r.line, method_, uri);
    GetHasNoBody(r);
    SplitsIs(method_, uri, path, query, wantsCgi);
    LeadsToIs(site, path, bin, node);
    var call := CgiCall(bin, method_, query, r.body);
    assert RunsCgi(site, method_, uri) && call == CallOf(site, method_, uri, r.body);
    assert S.Serves(machine(call), call);
    match machine(call)
    case Started(c) =>
      KilledIsAnswered(r, site, machine, junk, answer, c);
      AloneIsAnswered(r, site, machine, junk, answer, c);
    case _ => FailureIsAnswered(r, site, machine, junk, killed, answer);
  }

  lemma FailureIsAnswered(r: Request, site: Site, machine: S.Machine, junk: int, killed: bool, answer: string)
    requires RunsCgi(site, ParseLine(r.line).0, ParseLine(r.line).1)
    requires !machine(CallOf(site, ParseLine(r.line).0, ParseLine(r.line).1, r.body)).Started?
    ensures var p := ParseLine(r.line);
            AnswersRequest(r, site, machine, junk, killed, answer)
            <==> !killed && answer == ErrorWire(site, if machine(CallOf(site, p.0, p.1, r.body)).PipeFails?
                                                      then 500 else 404)
  {
    var p := ParseLine(r.line);
    var code := if machine(CallOf(site, p.0, p.1, r.body)).PipeFails? then SERVER_ERROR else NOT_FOUND;
    CgiReplyOnWire(site, p.0, p.1, r.body, CgiOutcome(code, ""), junk);
    if !killed {
      assert MayComeOut(site, p.0, p.1, r.body, machine, killed, CgiOutcome(code, ""));
    }
  }

  lemma KilledIsAnswered(r: Request, site: Site, machine: S.Machine, junk: int, answer: string, c: X.Config)
    requires RunsCgi(site, ParseLine(r.line).0, ParseLine(r.line).1) && c.Valid()
    requires machine(CallOf(site, ParseLine(r.line).0, ParseLine(r.line).1, r.body)) == S.Started(c)
    ensures AnswersRequest(r, site, machine, junk, true, answer) <==> answer == ErrorWire(site, 500)
  {
    var p := ParseLine(r.line);
    forall outcome: CgiOutcome | S.MayEnd(S.Started(c), true, outcome)
      ensures AnswerToRequest(r, site, outcome, junk) == ErrorWire(site, 500)
    {
      S.OutcomesOf(c, true, outcome);
      CgiReplyOnWire(site, p.0, p.1, r.body, outcome, junk);
    }
    var o := S.KillIsPossible(c);
    ThisAnswers(r, site, machine, junk, true, o);
  }

  lemma OwnOnWire(r: Request, site: Site, junk: int, c: X.Config)
    requires RunsCgi(site, ParseLine(r.line).0, ParseLine(r.line).1)
    ensures var p := ParseLine(r.line);
            AnswerToRequest(r, site, S.OwnOutcome(c), junk)
            == ProgramAnswer(site, CallOf(site, p.0, p.1, r.body).bin, c, c.query, c.body)
  {
    var p := ParseLine(r.line);
    CgiReplyOnWire(site, p.0, p.1, r.body, S.OwnOutcome(c), junk);
  }

  lemma AloneIsAnswered(r: Request, site: Site, machine: S.Machine, junk: int, answer: string, c: X.Config)
    requires RunsCgi(site, ParseLine(r.line).0, ParseLine(r.line).1) && c.Valid()
    requires machine(CallOf(site, ParseLine(r.line).0, ParseLine(r.line).1, r.body)) == S.Started(c)
    ensures var p := ParseLine(r.line);
            AnswersRequest(r, site, machine, junk, false, answer)
            <==> && S.EndsAlone(c)
                 && answer == ProgramAnswer(site, CallOf(site, p.0, p.1, r.body).bin, c, c.query, c.body)
  {
    var own := S.OwnOutcome(c);
    OwnOnWire(r, site, junk, c);
    forall outcome: CgiOutcome
      ensures S.MayEnd(S.Started(c), false, outcome) <==> S.EndsAlone(c) && outcome == own
    {
      S.OutcomesOf(c, false, outcome);
    }
    if S.EndsAlone(c) {
      ThisAnswers(r, site, machine, junk, false, own);
    }
  }

  lemma GetHasNoBody(r: Request)
    requires BodyLength(r.line, r.headers) == |r.body|
    ensures ParseLine(r.line).0 != "POST" ==> r.body == ""
  {
  }

  /** The reply to a CGI request, as the client reads it. */
  lemma CgiReplyOnWire(site: Site, method_: string, uri: string, body: string, outcome: CgiOutcome, junk: int)
    requires RunsCgi(site, method_, uri)
    ensures Wire(site, Respond(site, method_, uri, outcome, junk))
            == if outcome.code == OK then SuccessWire(CallOf(site, method_, uri, body).bin, outcome.output)
               else ErrorWire(site, outcome.code)
  {
    var entered := Entered(site, Located(Wanted(method_, uri).0));
    assert Respond(site, method_, uri, outcome, junk)
        == Serve(site, entered.0, entered.1, Wanted(method_, uri).1, outcome);
    CgiServedOnWire(site, entered.0, entered.1, Wanted(method_, uri).1, outcome);
  }

  /** The same for a POST as a client writes it: the first Content-Length line
      carries the length of the body. Its URI is the path, whatever is in it. */
  lemma {:induction false} PostToProgramIsAnswered(
      r: Request, first: LineEnd, ends: seq<LineEnd>, blank: LineEnd, more: string, i: nat,
      uri: string, bin: string, node: Node,
      site: Site, machine: S.Machine, junk: int, killed: bool, answer: string)
    requires |ends| == |r.headers| && Clean(r.line) && CleanHeaders(r.headers)
    requires !first.CR? && !blank.CR? && forall j | 0 <= j < |ends| :: !ends[j].CR?
    requires i < |r.headers| && r.headers[i] == "Content-Length: " + Decimal(|r.body|)
    requires forall j | 0 <= j < i :: !StartsWith(r.headers[j], "Content-Length: ")
    requires Asks(r.line, "POST", uri) && LeadsTo(site, uri, bin, node) && S.Faithful(machine)
    requires machine(CgiCall(bin, "POST", "", r.body)).Started?
    ensures var c := machine(CgiCall(bin, "POST", "", r.body)).c;
            Answers(Encode(r, first, ends, blank, more), site, machine, junk, killed, answer)
            <==> if killed then answer == ErrorWire(site, 500)
                 else S.EndsAlone(c) && answer == ProgramAnswer(site, bin, c, "", r.body)
  {
    AsksExactly(r.line, "POST", uri);
    AnnouncedLength(r, i);
    CgiIsAnswered(r, first, ends, blank, more, "POST", uri, uri, "", true, bin, node,
                  site, machine, junk, killed, answer);
  }
}
