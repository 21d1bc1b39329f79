/** http/Protocol.hpp: the EndPoint object that receives one request, builds the
    response in place and sends it. */
module Protocol {
  import opened Text
  import opened Utill
  import opened RequestFraming
  import opened Response
  import S = CgiServer

  class HttpRequest {
    var requestLine: string
    var requestHeader: seq<string>
    var blank: string
    var requestBody: string
    var method_: string
    var uri: string
    var version: string
    var headerKv: map<string, string>
    var contentLength: int
    var path: string
    var suffix: string
    var queryString: string
    var cgi: bool
    var size: int

    /** `junk` is what the uninitialised size field happens to hold. */
    constructor (junk: int)
      ensures Empty() && size == junk
    {
      requestLine, requestHeader, blank, requestBody := "", [], "", "";
      method_, uri, version, headerKv, contentLength := "", "", "", map[], 0;
      path, suffix, queryString, cgi, size := "", "", "", false, junk;
    }

    predicate Empty()
      reads this
    {
      && requestLine == "" && requestHeader == [] && requestBody == "" && headerKv == map[]
      && contentLength == 0 && queryString == "" && !cgi
    }
  }

  class HttpResponse {
    var statusLine: string
    var responseHeader: seq<string>
    var blank: string
    var responseBody: string
    var statusCode: StatusCode
    var fd: Option<string>   // the path behind the open descriptor

    constructor ()
      ensures Empty()
    {
      statusLine, responseHeader, blank, responseBody, statusCode, fd := "", [], LINE_END, "", OK, None;
    }

    predicate Empty()
      reads this
    {
      statusLine == "" && responseHeader == [] && blank == LINE_END && responseBody == ""
      && statusCode == OK && fd == None
    }
  }

  /** The client's end of the connection. */
  class Client {
    var received: string

    constructor ()
      ensures received == ""
    {
      received := "";
    }

    /** A send that makes progress, possibly a short one. */
    method Send(data: string) returns (n: nat)
      modifies this
      ensures n <= |data| && (data != "" ==> n > 0)
      ensures received == old(received) + data[..n]
    {
      n :| n <= |data| && (data != "" ==> n > 0);
      received := received + data[..n];
    }

    /** A send that is complete. */
    method SendAll(data: string)
      modifies this
      ensures received == old(received) + data
    {
      received := received + data;
    }
  }

  /** HeaderBlock with header lines already collected. */
  function WithFront(front: seq<string>, r: Option<(seq<string>, string)>): Option<(seq<string>, string)> {
    match r
    case None => None
    case Some(b) => Some((front + b.0, b.1))
  }

  lemma CollectOne(front: seq<string>, s: string)
    requires NextLine(s).Line? && NextLine(s).text != "\n"
    ensures var t := NextLine(s);
            WithFront(front, HeaderBlock(s)) == WithFront(front + [t.text[..|t.text| - 1]], HeaderBlock(t.rest))
  {
    var t := NextLine(s);
    match HeaderBlock(t.rest)
    case None =>
    case Some(b) => Assoc(front, [t.text[..|t.text| - 1]], b.0);
  }

  lemma TakeBodyIs(line: string, headers: seq<string>, s: string, n: int)
    requires n == BodyLength(line, headers)
    ensures TakeBody(line, headers, s)
            == if 0 <= n <= |s| then Some((Request(line, headers, s[..n]), s[n..])) else None
  {
  }

  /** An outcome this request can have on this machine; nothing looks at it when
      no child is started. */
  ghost predicate MayComeOut(site: Site, method_: string, uri: string, body: string, machine: S.Machine,
                             killed: bool, outcome: CgiOutcome)
  {
    RunsCgi(site, method_, uri) ==> S.MayEnd(machine(CallOf(site, method_, uri, body)), killed, outcome)
  }

  class EndPoint {
    const sock: Socket
    const request: HttpRequest
    const response: HttpResponse
    var stop: bool

    constructor (sock: Socket, junk: int)
      ensures this.sock == sock && !stop && fresh(request) && fresh(response)
      ensures request.Empty() && request.size == junk && response.Empty()
    {
      var q := new HttpRequest(junk);
      var p := new HttpResponse();
      this.sock, request, response, stop := sock, q, p, false;
    }

    // -------------------------------------------------------------- receiving

    method RecvHttpRequestLine() returns (stopped: bool)
      requires !stop && request.requestLine == ""
      modifies this, sock, request`requestLine
      ensures stopped == stop
      ensures match NextLine(old(sock.incoming))
              case NoLine(_) => stop
              case Line(text, rest) =>
                !stop && request.requestLine == text[..|text| - 1] && sock.incoming == rest
    {
      var n, line := ReadLine(sock, request.requestLine);
      request.requestLine := line;
      if n > 0 {
        assert line == "" + NextLine(old(sock.incoming)).text == NextLine(old(sock.incoming)).text;
        request.requestLine := line[..|line| - 1];
      } else {
        stop := true;
      }
      return stop;
    }

    method RecvHttpRequestHeader() returns (stopped: bool)
      requires !stop && request.requestHeader == []
      modifies this, sock, request`requestHeader, request`blank
      ensures stopped == stop
      ensures match HeaderBlock(old(sock.incoming))
              case None => stop
              case Some(block) => !stop && request.requestHeader == block.0 && sock.incoming == block.1
    {
      ghost var goal := HeaderBlock(sock.incoming);
      assert goal.Some? ==> [] + goal.value.0 == goal.value.0;
      while true
        invariant !stop && WithFront(request.requestHeader, HeaderBlock(sock.incoming)) == goal
        decreases |sock.incoming|
      {
        ghost var before := sock.incoming;
        var n, line := ReadLine(sock, "");
        if n <= 0 {
          stop := true;
          break;
        }
        assert line == "" + NextLine(before).text == NextLine(before).text;
        if line == "\n" {
          request.blank := line;
          assert request.requestHeader + [] == request.requestHeader;
          break;
        }
        CollectOne(request.requestHeader, before);
        line := line[..|line| - 1];
        request.requestHeader := request.requestHeader + [line];
      }
      return stop;
    }

    method ParseHttpRequestLine()
      modifies request`method_, request`uri, request`version
      ensures (request.method_, request.uri, request.version) == ParseLine(request.requestLine)
    {
      var m := NextWord(request.requestLine);
      var u := NextWord(m.1);
      var v := NextWord(u.1);
      request.method_, request.uri, request.version := m.0, u.0, v.0;
      request.method_ := ToUpper(request.method_);
    }

    /** The header map agrees with the header lines. */
    ghost predicate HeadersParsed()
      reads request`requestHeader, request`headerKv
    {
      forall key: string ::
        FirstValue(request.requestHeader, key)
        == if key in request.headerKv then Some(request.headerKv[key]) else None
    }

    /** The map keeps, for every key, the value of its first header line. */
    method ParseHttpRequestHeader()
      requires request.headerKv == map[]
      modifies request`headerKv
      ensures HeadersParsed()
    {
      var key, value := "", "";
      var headers := request.requestHeader;
      for i := 0 to |headers|
        invariant forall k: string ::
                    FirstValue(headers[..i], k) == if k in request.headerKv then Some(request.headerKv[k]) else None
      {
        ghost var before := request.headerKv;
        var found;
        found, key, value := CutString(headers[i], key, value, SEP);
        if found && key !in request.headerKv {
          request.headerKv := request.headerKv[key := value];
        }
        assert headers[..i + 1] == headers[..i] + [headers[i]];
        forall k: string
          ensures FirstValue(headers[..i + 1], k)
                  == if k in request.headerKv then Some(request.headerKv[k]) else None
        {
          FirstValueSnoc(headers[..i], headers[i], k);
        }
      }
      assert headers[..|headers|] == headers;
    }

    method IsNeedRecvHttpRequestBody() returns (needed: bool)
      requires request.contentLength == 0
      requires request.method_ == ParseLine(request.requestLine).0
      requires HeadersParsed()
      modifies request`contentLength
      ensures request.contentLength == BodyLength(request.requestLine, request.requestHeader)
      ensures !needed ==> request.contentLength == 0
    {
      assert FirstValue(request.requestHeader, CONTENT_LENGTH).Some? <==> CONTENT_LENGTH in request.headerKv;
      if request.method_ == "POST" {
        if CONTENT_LENGTH in request.headerKv {
          request.contentLength := Atoi(request.headerKv[CONTENT_LENGTH]);
          return true;
        }
      }
      return false;
    }

    method RecvHttpRequestBody() returns (stopped: bool)
      requires !stop && request.contentLength == 0 && request.requestBody == ""
      requires request.method_ == ParseLine(request.requestLine).0
      requires HeadersParsed()
      modifies this, sock, request`contentLength, request`requestBody
      ensures stopped == stop
      ensures request.contentLength == BodyLength(request.requestLine, request.requestHeader)
      ensures stop <==> !(0 <= request.contentLength <= |old(sock.incoming)|)
      ensures !stop ==>
                && request.requestBody == old(sock.incoming)[..request.contentLength]
                && sock.incoming == old(sock.incoming)[request.contentLength..]
    {
      var needed := IsNeedRecvHttpRequestBody();
      if needed {
        RecvBytes(request.contentLength);
      } else {
        assert sock.incoming[0..] == sock.incoming && sock.incoming[..0] == "";
      }
      return stop;
    }

    /** The receiving loop: exactly this many bytes, or it stops. */
    method RecvBytes(announced: int)
      requires !stop && request.requestBody == ""
      modifies this, sock, request`requestBody
      ensures stop <==> !(0 <= announced <= |old(sock.incoming)|)
      ensures !stop ==>
                && request.requestBody == old(sock.incoming)[..announced]
                && sock.incoming == old(sock.incoming)[announced..]
    {
      ghost var all := sock.incoming;
      assert all[0..] == all && all[..0] == "";
      var contentLength := announced;
      var ch := 0 as char;
      while contentLength != 0
        invariant !stop && |request.requestBody| <= |all|
        invariant contentLength + |request.requestBody| == announced
        invariant announced >= 0 ==> contentLength >= 0
        invariant request.requestBody == all[..|request.requestBody|]
        invariant sock.incoming == all[|request.requestBody|..]
        decreases |sock.incoming|
      {
        var s;
        s, ch := sock.Recv(ch);
        if s > 0 {
          ghost var n := |request.requestBody|;
          assert ch == all[n..][0] && sock.incoming == all[n..][1..];
          request.requestBody := request.requestBody + [ch];
          contentLength := contentLength - 1;
        } else {
          stop := true;
          break;
        }
      }
    }

    method RecvHead() returns (stopped: bool)
      requires !stop && request.requestLine == "" && request.requestHeader == []
      modifies this, sock, request`requestLine, request`requestHeader, request`blank
      ensures stopped == stop
      ensures Head(old(sock.incoming))
              == if stop then None else Some((request.requestLine, request.requestHeader, sock.incoming))
    {
      stopped := RecvHttpRequestLine();
      if !stopped {
        stopped := RecvHttpRequestHeader();
      }
    }

    /** The request the fields hold. */
    function Received(): Request
      reads this, request
    {
      Request(request.requestLine, request.requestHeader, request.requestBody)
    }

    method ParseHttpRequest()
      requires request.headerKv == map[]
      modifies request`method_, request`uri, request`version, request`headerKv
      ensures (request.method_, request.uri, request.version) == ParseLine(request.requestLine)
      ensures HeadersParsed()
    {
      ParseHttpRequestLine();
      ParseHttpRequestHeader();
    }

    method ParseAndRecvBody()
      requires !stop && request.headerKv == map[] && request.contentLength == 0 && request.requestBody == ""
      modifies this, sock, request`method_, request`uri, request`version, request`headerKv,
               request`contentLength, request`requestBody
      ensures (request.method_, request.uri, request.version) == ParseLine(request.requestLine)
      ensures TakeBody(request.requestLine, request.requestHeader, old(sock.incoming))
              == if stop then None else Some((Received(), sock.incoming))
      ensures !stop ==> request.contentLength == |request.requestBody|
    {
      ghost var all := sock.incoming;
      ParseHttpRequest();
      var stopped := RecvHttpRequestBody();
      TakeBodyIs(request.requestLine, request.requestHeader, all, request.contentLength);
    }

    /** The object ends up holding exactly the request the stream spells, or it
        has stopped exactly because the stream spells none. The path, the query,
        the flag and the size are left alone. */
    method RecvHttpRequest()
      requires !stop && request.Empty()
      modifies this, sock, request`requestLine, request`requestHeader, request`blank, request`method_, request`uri,
               request`version, request`headerKv, request`contentLength, request`requestBody
      ensures Receive(old(sock.incoming)) == if stop then None else Some((Received(), sock.incoming))
      ensures !stop ==>
                && request.contentLength == |request.requestBody|
                && (request.method_, request.uri, request.version) == ParseLine(request.requestLine)
    {
      var stopped := RecvHead();
      if !stopped {
        ParseAndRecvBody();
      }
    }

    // -------------------------------------------------------------- answering

    /** The fields sending looks at are those of this reply. */
    ghost predicate Holds(r: Reply)
      reads this, request, response
    {
      && response.statusCode == r.code && response.responseHeader == WithEnds(r.lines)
      && request.cgi == r.cgi && response.fd == r.file && request.size == r.size
      && response.responseBody == r.body && response.blank == LINE_END
    }

    /** Starts the program at the request's path with its method, query and body. */
    method ProcessCgi(machine: S.Machine) returns (code: StatusCode, ghost killed: bool, ghost outcome: CgiOutcome)
      requires S.Faithful(machine)
      modifies response`responseBody
      ensures S.MayEnd(machine(CgiCall(request.path, request.method_, request.queryString, request.requestBody)),
                       killed, outcome)
      ensures response.responseBody == old(response.responseBody) + outcome.output && code == outcome.code
    {
      var call := CgiCall(request.path, request.method_, request.queryString, request.requestBody);
      var result;
      result, killed := S.Launched(machine(call), call);
      response.responseBody := response.responseBody + result.output;
      code, outcome := result.code, result;
    }

    method ProcessNonCgi(site: Site) returns (code: StatusCode)
      modifies response`fd
      ensures code == if Opens(site, request.path) then OK else NOT_FOUND
      ensures response.fd == if Opens(site, request.path) then Some(request.path) else None
    {
      response.fd := if Opens(site, request.path) then Some(request.path) else None;
      if response.fd.Some? {
        return OK;
      }
      return NOT_FOUND;
    }

    method BuildOkResponse()
      requires response.responseHeader == [] && (request.cgi || request.size >= 0)
      modifies response`responseHeader
      ensures response.responseHeader
              == WithEnds(Headers(Suffix2Desc(request.suffix),
                                  if request.cgi then |response.responseBody| else request.size))
    {
      var line := "Content-Type: ";
      line := line + Suffix2Desc(request.suffix);
      line := line + LINE_END;
      response.responseHeader := response.responseHeader + [line];

      line := "Content-Length: ";
      if request.cgi {
        line := line + Decimal(|response.responseBody|);
      } else {
        line := line + Decimal(request.size);
      }
      line := line + LINE_END;
      response.responseHeader := response.responseHeader + [line];
    }

    method HandlerError(site: Site, page: string)
      requires response.responseHeader == [] && response.blank == LINE_END && page == PAGE_404
      modifies request`cgi, request`size, response`fd, response`responseHeader
      ensures Holds(ErrorReply(site, response.statusCode, old(request.size), response.responseBody))
    {
      request.cgi := false;
      response.fd := if Opens(site, page) then Some(page) else None;
      if response.fd.Some? {
        var bytes := site[page].Size();
        request.size := bytes;

        var line := "Content-Type: text/html";
        line := line + LINE_END;
        response.responseHeader := response.responseHeader + [line];

        line := "Content-Length: ";
        line := line + Decimal(bytes);
        line := line + LINE_END;
        response.responseHeader := response.responseHeader + [line];
        assert TYPE_PREFIX + "text/html" == "Content-Type: text/html";
        assert response.responseHeader == WithEnds(Headers("text/html", bytes));
      } else {
        assert WithEnds([]) == [];
      }
    }

    method BuildStatusLine()
      requires response.statusLine == ""
      modifies response`statusLine
      ensures response.statusLine == StatusLine(response.statusCode)
    {
      var line := "";
      line := line + "HTTP/1.0";
      line := line + " ";
      assert line == "HTTP/1.0 ";
      line := line + Decimal(response.statusCode);
      line := line + " ";
      line := line + Code2Desc(response.statusCode);
      line := line + LINE_END;
      response.statusLine := line;
    }

    method BuildHttpResponseHelper(site: Site)
      requires response.responseHeader == [] && response.blank == LINE_END && response.statusLine == ""
      requires response.statusCode == OK ==> request.cgi || request.size >= 0
      modifies request`cgi, request`size, response`fd, response`responseHeader, response`statusLine
      ensures response.statusLine == StatusLine(response.statusCode)
      ensures Holds(old(Draft(site)))
    {
      ghost var draft := Draft(site);
      BuildStatusLine();
      var code := response.statusCode;
      var path := WEB_ROOT;
      path := path + "/";
      if code == OK {
        BuildOkResponse();
        assert response.responseHeader == WithEnds(draft.lines);
      } else {
        path := path + "404.html";
        assert draft == ErrorReply(site, code, request.size, response.responseBody);
        HandlerError(site, path);
      }
    }

    /** Path, query string and CGI flag from a GET or POST request. */
    method SplitUri()
      requires !request.cgi && request.queryString == "" && (request.method_ == "GET" || request.method_ == "POST")
      modifies request`path, request`queryString, request`cgi
      ensures (request.path, request.cgi) == Wanted(request.method_, request.uri)
      ensures request.queryString == QueryOf(request.method_, request.uri)
      ensures Splits(request.method_, request.uri, request.path, request.queryString, request.cgi)
    {
      if request.method_ == "GET" {
        FirstQuestion(request.uri);
        var pos := FindFrom(request.uri, "?", 0);
        if pos.Some? {
          var found;
          found, request.path, request.queryString := CutString(request.uri, request.path, request.queryString, "?");
          request.cgi := true;
        } else {
          request.path := request.uri;
        }
      } else {
        request.cgi := true;
        request.path := request.uri;
      }
    }

    /** The path from its last dot on; without a dot the page suffix. */
    method FindSuffix()
      modifies request`suffix
      ensures request.suffix == SuffixOf(request.path)
      ensures '.' !in request.path ==> request.suffix == ".html"
      ensures '.' in request.path ==>
                EndsWith(request.path, request.suffix) && request.suffix != ""
                && request.suffix[0] == '.' && '.' !in request.suffix[1..]
    {
      request.suffix := SuffixOf(request.path);
      SuffixAtDot(request.path);
    }

    /** The resource under the web root, if it exists. */
    method LocateResource(site: Site) returns (found: bool)
      modifies request`path, request`cgi, request`size, request`suffix
      ensures found <==> Located(old(request.path)) in site
      ensures !found ==> request.cgi == old(request.cgi) && request.size == old(request.size)
      ensures found ==>
                && request.path == Entered(site, Located(old(request.path))).0
                && var node := Entered(site, Located(old(request.path))).1;
                   && request.cgi == (old(request.cgi) || node.executable)
                   && request.size == node.Size() && request.suffix == SuffixOf(request.path)
    {
      var wanted := request.path;
      request.path := WEB_ROOT;
      request.path := request.path + wanted;
      if request.path[|request.path| - 1] == '/' {
        request.path := request.path + HOME_PAGE;
      }
      assert request.path == Located(wanted);
      if request.path !in site {
        return false;
      }
      var st := site[request.path];
      if st.Dir? {
        request.path := request.path + "/";
        request.path := request.path + HOME_PAGE;
        if request.path in site {
          st := site[request.path];
        }
      }
      assert (request.path, st) == Entered(site, Located(wanted));
      if st.executable {
        request.cgi := true;
      }
      request.size := st.Size();
      FindSuffix();
      return true;
    }

    /** What the fields spell before the status line is built. */
    function Draft(site: Site): Reply
      reads this, request, response
      requires response.statusCode == OK ==> request.cgi || request.size >= 0
    {
      if response.statusCode == OK then
        Reply(OK, Headers(Suffix2Desc(request.suffix), if request.cgi then |response.responseBody| else request.size),
              request.cgi, response.fd, request.size, response.responseBody)
      else ErrorReply(site, response.statusCode, request.size, response.responseBody)
    }

    /** From the parsed request line to the resource and the decision for CGI. */
    method Route(site: Site) returns (found: bool)
      requires !request.cgi && request.queryString == "" && (request.method_ == "GET" || request.method_ == "POST")
      modifies request`path, request`queryString, request`cgi, request`size, request`suffix
      ensures found <==> Located(Wanted(request.method_, request.uri).0) in site
      ensures !found ==> request.size == old(request.size)
      ensures request.queryString == QueryOf(request.method_, request.uri)
      ensures found ==>
                && request.cgi == RunsCgi(site, request.method_, request.uri)
                && request.suffix == SuffixOf(request.path)
                && (request.path, request.size)
                   == var entered := Entered(site, Located(Wanted(request.method_, request.uri).0));
                      (entered.0, entered.1.Size())
    {
      SplitUri();
      found := LocateResource(site);
    }

    method FindResource(site: Site, machine: S.Machine) returns (ghost killed: bool, ghost outcome: CgiOutcome)
      requires S.Faithful(machine)
      requires !request.cgi && request.queryString == "" && response.Empty()
      modifies request`path, request`queryString, request`cgi, request`size, request`suffix,
               response`statusCode, response`responseBody, response`fd
      ensures response.statusCode == OK ==> request.cgi || request.size >= 0
      ensures MayComeOut(site, request.method_, request.uri, request.requestBody, machine, killed, outcome)
      ensures Draft(site) == Respond(site, request.method_, request.uri, outcome, old(request.size))
    {
      killed, outcome := false, CgiOutcome(OK, "");
      if request.method_ != "GET" && request.method_ != "POST" {
        response.statusCode := BAD_REQUEST;
        return;
      }
      var found := Route(site);
      if !found {
        response.statusCode := NOT_FOUND;
        return;
      }
      if request.cgi {
        var code;
        code, killed, outcome := ProcessCgi(machine);
        response.statusCode := code;
        assert "" + outcome.output == outcome.output;
      } else {
        response.statusCode := ProcessNonCgi(site);
      }
    }

    /** The response fields end up holding exactly the specified reply. */
    method BuildHttpResponse(site: Site, machine: S.Machine) returns (ghost killed: bool, ghost outcome: CgiOutcome)
      requires S.Faithful(machine)
      requires !request.cgi && request.queryString == "" && response.Empty()
      modifies request`path, request`queryString, request`cgi, request`size, request`suffix, response
      ensures MayComeOut(site, request.method_, request.uri, request.requestBody, machine, killed, outcome)
      ensures Holds(Respond(site, request.method_, request.uri, outcome, old(request.size)))
      ensures response.statusLine == StatusLine(response.statusCode)
    {
      killed, outcome := FindResource(site, machine);
      BuildHttpResponseHelper(site);
    }

    method SendHeaders(client: Client)
      modifies client
      ensures client.received == old(client.received) + Flat(response.responseHeader)
    {
      ghost var start := client.received;
      var headers := response.responseHeader;
      assert start + Flat(headers[..0]) == start;
      for i := 0 to |headers|
        invariant client.received == start + Flat(headers[..i])
      {
        client.SendAll(headers[i]);
        assert headers[..i + 1] == headers[..i] + [headers[i]];
        FlatSnoc(headers[..i], headers[i]);
        Assoc(start, Flat(headers[..i]), headers[i]);
      }
      assert headers[..|headers|] == headers;
    }

    /** Each send may be short; the loop goes on where it stopped. */
    method SendResponseBody(client: Client)
      modifies client
      ensures client.received == old(client.received) + response.responseBody
    {
      ghost var start := client.received;
      var body := response.responseBody;
      var total := 0;
      assert start + body[..0] == start;
      while total < |body|
        invariant total <= |body| && client.received == start + body[..total]
      {
        var size := client.Send(body[total..]);
        assert body[..total + size] == body[..total] + body[total..][..size];
        Assoc(start, body[..total], body[total..][..size]);
        total := total + size;
      }
      assert body[..total] == body;
    }

    /** The client receives the whole reply; body sends may be short but progress. */
    method SendHttpResponse(client: Client, site: Site, ghost r: Reply)
      requires Holds(r) && response.statusLine == StatusLine(r.code)
      modifies client
      ensures client.received == old(client.received) + Wire(site, r)
    {
      ghost var start := client.received;
      client.SendAll(response.statusLine);
      SendHeaders(client);
      client.SendAll(response.blank);
      if request.cgi {
        SendResponseBody(client);
      } else {
        client.SendAll(FileBody(site, response.fd, request.size));
      }
      WireFrom(start, site, r);
    }

    method BuildAndSend(client: Client, site: Site, machine: S.Machine)
      returns (ghost killed: bool, ghost outcome: CgiOutcome)
      requires S.Faithful(machine)
      requires !request.cgi && request.queryString == "" && response.Empty()
      modifies client, response,
               request`path, request`queryString, request`cgi, request`size, request`suffix
      ensures MayComeOut(site, request.method_, request.uri, request.requestBody, machine, killed, outcome)
      ensures client.received == old(client.received)
                                 + Wire(site, Respond(site, request.method_, request.uri, outcome, old(request.size)))
    {
      ghost var size := request.size;
      killed, outcome := BuildHttpResponse(site, machine);
      SendHttpResponse(client, site, Respond(site, request.method_, request.uri, outcome, size));
    }
  }

  lemma WireFrom(start: string, site: Site, r: Reply)
    ensures start + StatusLine(r.code) + Flat(WithEnds(r.lines)) + LINE_END + SentBody(site, r) == start + Wire(site, r)
  {
    var a, b, c, d := StatusLine(r.code), Flat(WithEnds(r.lines)), LINE_END, SentBody(site, r);
    Assoc(start, a, b);
    Assoc(start, a + b, c);
    Assoc(start, a + b + c, d);
  }
}
