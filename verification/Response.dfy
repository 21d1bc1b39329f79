/** http/Protocol.hpp, the answering half: which status, headers and body source
    a request gets from a file system of files and directories, and what the
    client reads off the wire (RFC 1945 section 10.4). */
module Response {
  import opened Text
  import opened Utill
  import opened RequestFraming

  /** The four statuses of the server. */
  type StatusCode = c: int | c == 200 || c == 400 || c == 404 || c == 500 witness 200

  const OK: StatusCode := 200
  const BAD_REQUEST: StatusCode := 400
  const NOT_FOUND: StatusCode := 404
  const SERVER_ERROR: StatusCode := 500

  const WEB_ROOT: string := "wwwroot"
  const HOME_PAGE: string := "index.html"
  const PAGE_404: string := "wwwroot/404.html"
  const TYPE_PREFIX: string := "Content-Type: "
  const LINE_END: string := "\r\n"

  /** What stat and open tell about a path. `executable` is any of the three bits. */
  datatype Node = File(content: string, executable: bool, readable: bool) | Dir(executable: bool, bytes: nat) {
    function Size(): nat { if File? then |content| else bytes }
    predicate Opens() { Dir? || readable }
  }

  type Site = map<string, Node>

  predicate Opens(site: Site, path: string) { path in site && site[path].Opens() }

  /** How ProcessCgi came out: its status code and the output it collected. */
  datatype CgiOutcome = CgiOutcome(code: StatusCode, output: string)

  /** The request and response fields that sending looks at; header lines
      without their line ends. */
  datatype Reply = Reply(code: StatusCode, lines: seq<string>, cgi: bool, file: Option<string>, size: int, body: string)

  function Code2Desc(code: StatusCode): string {
    if code == 200 then "OK" else if code == 404 then "Not Found" else ""
  }

  function Suffix2Desc(suffix: string): string {
    if suffix == ".css" then "text/css"
    else if suffix == ".js" then "application/javascript"
    else if suffix == ".jpg" then "application/x-jpg"
    else if suffix == ".xml" then "application/xml"
    else "text/html"
  }

  lemma CssAndXmlAreClean()
    ensures Clean("text/css") && Clean("application/xml")
  {
  }

  lemma ScriptIsClean()
    ensures Clean("application/javascript")
  {
  }

  lemma ImageAndPageAreClean()
    ensures Clean("application/x-jpg") && Clean("text/html")
  {
  }

  lemma DescIsClean(suffix: string)
    ensures Clean(Suffix2Desc(suffix))
  {
    CssAndXmlAreClean();
    ScriptIsClean();
    ImageAndPageAreClean();
  }

  /** The path from its last dot on, or the default suffix. */
  function SuffixOf(path: string): string {
    if path == "" then ".html"
    else
      var last := |path| - 1;
      if path[last] == '.' then "."
      else if '.' !in path then ".html"
      else SuffixOf(path[..last]) + [path[last]]
  }

  /** The suffix starts at the last dot; i is just behind it, or 0 without a dot. */
  lemma {:induction false} SuffixIs(path: string, i: nat)
    requires i <= |path| && '.' !in path[i..] && (i == 0 || path[i - 1] == '.')
    ensures SuffixOf(path) == if i == 0 then ".html" else path[i - 1..]
  {
    if path != "" && path[|path| - 1] != '.' && '.' in path {
      var front := path[..|path| - 1];
      assert path[i..] == front[i..] + [path[|path| - 1]];
      SuffixIs(front, i);
      assert path[i - 1..] == front[i - 1..] + [path[|path| - 1]];
    }
  }

  lemma SuffixAtDot(path: string)
    ensures '.' !in path ==> SuffixOf(path) == ".html"
    ensures '.' in path ==>
              var suffix := SuffixOf(path);
              EndsWith(path, suffix) && suffix != "" && suffix[0] == '.' && '.' !in suffix[1..]
  {
    var i := LastDot(path);
    SuffixIs(path, i);
    if i > 0 {
      assert path[i - 1..][1..] == path[i..];
    } else {
      assert path[0..] == path;
    }
  }

  predicate EndsWith(s: string, tail: string) { |tail| <= |s| && s[|s| - |tail|..] == tail }

  /** The type a client reads for a path. */
  function TypeOf(path: string): string {
    if EndsWith(path, ".css") then "text/css"
    else if EndsWith(path, ".js") then "application/javascript"
    else if EndsWith(path, ".jpg") then "application/x-jpg"
    else if EndsWith(path, ".xml") then "application/xml"
    else "text/html"
  }

  /** Just behind the last dot, or 0. */
  lemma {:induction false} LastDot(path: string) returns (i: nat)
    ensures i <= |path| && '.' !in path[i..] && (i == 0 || path[i - 1] == '.')
  {
    i := |path|;
    while i > 0 && path[i - 1] != '.'
      invariant i <= |path| && '.' !in path[i..]
    {
      i := i - 1;
      assert path[i..] == [path[i]] + path[i + 1..];
    }
  }

  /** A path ends with a dot and some letters exactly when this is its suffix. */
  lemma EndsWithIs(path: string, letters: string)
    requires '.' !in letters && letters != "html"
    ensures EndsWith(path, "." + letters) <==> SuffixOf(path) == "." + letters
  {
    var i := LastDot(path);
    SuffixIs(path, i);
    var n := |path| - |letters|;
    if EndsWith(path, "." + letters) {
      assert path[n - 1..] == "." + letters;
      assert path[n - 1] == path[n - 1..][0] && path[n..] == path[n - 1..][1..] == letters;
      SuffixIs(path, n);
    } else {
      assert ".html"[1..] == "html" && ("." + letters)[1..] == letters;
    }
  }

  lemma TypeIs(path: string)
    ensures Suffix2Desc(SuffixOf(path)) == TypeOf(path)
  {
    EndsWithIs(path, "css");
    EndsWithIs(path, "js");
    EndsWithIs(path, "jpg");
    EndsWithIs(path, "xml");
    assert "." + "css" == ".css" && "." + "js" == ".js" && "." + "jpg" == ".jpg" && "." + "xml" == ".xml";
  }

  function StatusLine(code: StatusCode): string {
    "HTTP/1.0 " + Decimal(code) + " " + Code2Desc(code) + LINE_END
  }

  lemma OkLine()
    ensures StatusLine(OK) == "HTTP/1.0 200 OK\r\n"
  {
    DecimalIs(0, 2);
    DecimalIs(2, 0);
    DecimalIs(20, 0);
    assert Decimal(200) == "200";
  }

  lemma BadRequestLine()
    ensures StatusLine(BAD_REQUEST) == "HTTP/1.0 400 \r\n"
  {
    DecimalIs(0, 4);
    DecimalIs(4, 0);
    DecimalIs(40, 0);
    assert Decimal(400) == "400";
  }

  lemma NotFoundLine()
    ensures StatusLine(NOT_FOUND) == "HTTP/1.0 404 Not Found\r\n"
  {
    DecimalIs(0, 4);
    DecimalIs(4, 0);
    DecimalIs(40, 4);
    assert Decimal(404) == "404";
  }

  lemma ServerErrorLine()
    ensures StatusLine(SERVER_ERROR) == "HTTP/1.0 500 \r\n"
  {
    DecimalIs(0, 5);
    DecimalIs(5, 0);
    DecimalIs(50, 0);
    assert Decimal(500) == "500";
  }

  /** The status lines a client reads with an error. */
  function ErrorLine(code: StatusCode): string
    requires code != 200
  {
    if code == 400 then "HTTP/1.0 400 \r\n"
    else if code == 404 then "HTTP/1.0 404 Not Found\r\n"
    else "HTTP/1.0 500 \r\n"
  }

  /** The four status lines there are. */
  lemma StatusLineIs(code: StatusCode)
    ensures StatusLine(code) == if code == 200 then "HTTP/1.0 200 OK\r\n" else ErrorLine(code)
  {
    OkLine();
    BadRequestLine();
    NotFoundLine();
    ServerErrorLine();
  }

  /** The two header lines of every reply that has a body. */
  function Headers(desc: string, length: nat): seq<string> {
    [TYPE_PREFIX + desc, LENGTH_PREFIX + Decimal(length)]
  }

  /** HandlerError: the 404 page if it opens, and no headers otherwise. */
  function ErrorReply(site: Site, code: StatusCode, size: int, body: string): Reply {
    if Opens(site, PAGE_404) then
      Reply(code, Headers("text/html", site[PAGE_404].Size()), false, Some(PAGE_404), site[PAGE_404].Size(), body)
    else Reply(code, [], false, None, size, body)
  }

  /** Path and CGI flag taken from method and URI. */
  function Wanted(method_: string, uri: string): (string, bool) {
    if method_ == "POST" then (uri, true)
    else
      match Cut(uri, "?")
      case Some(parts) => (parts.0, true)
      case None => (uri, false)
  }

  /** The requested path under the web root, with the home page for a trailing slash. */
  function Located(path: string): string {
    var full := WEB_ROOT + path;
    if full[|full| - 1] == '/' then full + HOME_PAGE else full
  }

  /** For a directory its home page is taken; a failing second stat leaves the
      directory's own data in place. */
  function Entered(site: Site, path: string): (r: (string, Node))
    requires path in site
  {
    if site[path].Dir? then
      var index := path + "/" + HOME_PAGE;
      (index, if index in site then site[index] else site[path])
    else (path, site[path])
  }

  /** The reply for a resource that exists. */
  function Serve(site: Site, path: string, node: Node, wantsCgi: bool, outcome: CgiOutcome): Reply {
    var desc := Suffix2Desc(SuffixOf(path));
    if wantsCgi || node.executable then
      if outcome.code == OK then
        Reply(OK, Headers(desc, |outcome.output|), true, None, node.Size(), outcome.output)
      else ErrorReply(site, outcome.code, node.Size(), outcome.output)
    else if Opens(site, path) then
      Reply(OK, Headers(desc, node.Size()), false, Some(path), node.Size(), "")
    else ErrorReply(site, NOT_FOUND, node.Size(), "")
  }

  /** BuildHttpResponse on fresh request and response objects whose `size` field
      was never set and holds `junk`. */
  function Respond(site: Site, method_: string, uri: string, outcome: CgiOutcome, junk: int): Reply {
    if method_ != "GET" && method_ != "POST" then ErrorReply(site, BAD_REQUEST, junk, "")
    else
      var wanted := Wanted(method_, uri);
      var located := Located(wanted.0);
      if located !in site then ErrorReply(site, NOT_FOUND, junk, "")
      else
        var entered := Entered(site, located);
        Serve(site, entered.0, entered.1, wanted.1, outcome)
  }

  /** The three routes into ProcessCgi: a POST, a query, or executable bits. */
  predicate RunsCgi(site: Site, method_: string, uri: string) {
    && (method_ == "GET" || method_ == "POST")
    && var wanted := Wanted(method_, uri);
       && Located(wanted.0) in site
       && (wanted.1 || Entered(site, Located(wanted.0)).1.executable)
  }

  /** The query a child finds in its environment. */
  function QueryOf(method_: string, uri: string): string {
    if method_ == "GET" && Cut(uri, "?").Some? then Cut(uri, "?").value.1 else ""
  }

  /** What a CGI child is started with: its program, environment and input. */
  datatype CgiCall = CgiCall(bin: string, method_: string, query: string, body: string)

  function CallOf(site: Site, method_: string, uri: string, body: string): CgiCall
    requires RunsCgi(site, method_, uri)
  {
    CgiCall(Entered(site, Located(Wanted(method_, uri).0)).0, method_, QueryOf(method_, uri), body)
  }

  /** What sendfile delivers: nothing from a directory or a bad descriptor, and
      never more than the file holds. */
  function FileBody(site: Site, file: Option<string>, size: int): string {
    match file
    case None => ""
    case Some(path) =>
      if path in site && site[path].File? && 0 <= size then
        var content := site[path].content;
        if size <= |content| then content[..size] else content
      else ""
  }

  /** The body SendHttpResponse puts on the wire. */
  function SentBody(site: Site, r: Reply): string {
    if r.cgi then r.body else FileBody(site, r.file, r.size)
  }

  /** The length a client reads from the header lines. */
  function Advertised(lines: seq<string>): Option<int> {
    match FirstValue(lines, CONTENT_LENGTH)
    case None => None
    case Some(v) => Some(Atoi(v))
  }

  lemma HeadersAreClean(desc: string, length: nat)
    requires Clean(desc)
    ensures CleanHeaders(Headers(desc, length))
  {
    var h := Headers(desc, length);
    assert Clean(TYPE_PREFIX) && Clean(LENGTH_PREFIX);
    assert forall i | 0 <= i < |Decimal(length)| :: IsDigit(Decimal(length)[i]);
  }

  lemma HeadersAdvertise(desc: string, length: nat)
    ensures Advertised(Headers(desc, length)) == Some(length)
  {
    var h := Headers(desc, length);
    assert h[0][8] == TYPE_PREFIX[8] == 'T' && LENGTH_PREFIX[8] == 'L';
    assert !StartsWith(h[0], LENGTH_PREFIX) by {
      if |h[0]| >= 16 {
        assert h[0][0..16][8] == h[0][8];
      }
    }
    FirstLengthWins(h, 1, Decimal(length));
    AtoiDecimal(length, "");
    assert Decimal(length) + "" == Decimal(length);
  }

  /** The requested directory's home page is itself a plain directory. */
  predicate HomeIsDirectory(site: Site, method_: string, uri: string) {
    && method_ == "GET" && !Wanted(method_, uri).1
    && var located := Located(Wanted(method_, uri).0);
       && located in site && site[located].Dir?
       && var index := located + "/" + HOME_PAGE;
          index in site && site[index].Dir? && !site[index].executable && site[index].bytes > 0
  }

  /** The request is answered with an error: another method, nothing there, a
      child that failed, or a page that does not open. */
  predicate AnswersWithError(site: Site, method_: string, uri: string, outcome: CgiOutcome) {
    || (method_ != "GET" && method_ != "POST")
    || var located := Located(Wanted(method_, uri).0);
       || located !in site
       || if RunsCgi(site, method_, uri) then outcome.code != OK else !Opens(site, Entered(site, located).0)
  }

  predicate ErrorPageIsDirectory(site: Site) {
    PAGE_404 in site && site[PAGE_404].Dir? && site[PAGE_404].bytes > 0
  }

  /** What holds of a reply's header lines and of the body sent with it. */
  predicate Consistent(site: Site, r: Reply, exact: bool) {
    && CleanHeaders(r.lines)
    && (r.lines == [] ==> Advertised(r.lines).None?)
    && (r.lines != [] ==> Advertised(r.lines).Some?)
    && (Advertised(r.lines).Some? ==> (Advertised(r.lines) == Some(|SentBody(site, r)|) <==> exact))
  }

  lemma ErrorReplyConsistent(site: Site, code: StatusCode, size: int, body: string)
    ensures Consistent(site, ErrorReply(site, code, size, body), !ErrorPageIsDirectory(site))
    ensures ErrorReply(site, code, size, body).lines == [] <==> !Opens(site, PAGE_404)
  {
    if Opens(site, PAGE_404) {
      HeadersAreClean("text/html", site[PAGE_404].Size());
      HeadersAdvertise("text/html", site[PAGE_404].Size());
    }
  }

  lemma CgiReplyConsistent(site: Site, desc: string, size: int, output: string)
    requires Clean(desc)
    ensures Consistent(site, Reply(OK, Headers(desc, |output|), true, None, size, output), true)
  {
    HeadersAreClean(desc, |output|);
    HeadersAdvertise(desc, |output|);
  }

  lemma FileReplyConsistent(site: Site, desc: string, path: string)
    requires Clean(desc) && path in site
    ensures Consistent(site, Reply(OK, Headers(desc, site[path].Size()), false, Some(path), site[path].Size(), ""),
                       site[path].Size() == 0 || site[path].File?)
  {
    HeadersAreClean(desc, site[path].Size());
    HeadersAdvertise(desc, site[path].Size());
  }

  /** A directory is about to be sent as a file. */
  predicate SendsDirectory(site: Site, path: string, node: Node, wantsCgi: bool) {
    !wantsCgi && !node.executable && path in site && site[path].Dir? && site[path].bytes > 0
  }

  lemma ServeConsistent(site: Site, path: string, node: Node, wantsCgi: bool, outcome: CgiOutcome)
    requires path in site ==> node == site[path]
    ensures var r := Serve(site, path, node, wantsCgi, outcome);
            && Consistent(site, r, !(SendsDirectory(site, path, node, wantsCgi)
                                     || (r.code != OK && ErrorPageIsDirectory(site))))
            && (r.code != OK && r.lines == [] ==> !Opens(site, PAGE_404))
            && (r.code == OK ==> r.lines != [])
  {
    var desc := Suffix2Desc(SuffixOf(path));
    DescIsClean(SuffixOf(path));
    if (wantsCgi || node.executable) && outcome.code == OK {
      CgiReplyConsistent(site, desc, node.Size(), outcome.output);
    } else if !(wantsCgi || node.executable) && Opens(site, path) {
      FileReplyConsistent(site, desc, path);
    } else {
      ErrorReplyConsistent(site, if wantsCgi || node.executable then outcome.code else NOT_FOUND, node.Size(),
                           if wantsCgi || node.executable then outcome.output else "");
    }
  }

  lemma HomeIsWhatIsSent(site: Site, method_: string, uri: string)
    requires method_ == "GET" || method_ == "POST"
    requires Located(Wanted(method_, uri).0) in site
    ensures var wanted := Wanted(method_, uri);
            var entered := Entered(site, Located(wanted.0));
            && (entered.0 in site ==> entered.1 == site[entered.0])
            && (SendsDirectory(site, entered.0, entered.1, wanted.1) <==> HomeIsDirectory(site, method_, uri))
  {
  }

  lemma ErrorExactly(site: Site, method_: string, uri: string, outcome: CgiOutcome, junk: int)
    ensures Respond(site, method_, uri, outcome, junk).code != OK <==> AnswersWithError(site, method_, uri, outcome)
    ensures Respond(site, method_, uri, outcome, junk).lines == []
            <==> AnswersWithError(site, method_, uri, outcome) && !Opens(site, PAGE_404)
  {
  }

  /** The request makes the server send a directory as a file. */
  predicate LiesAboutLength(site: Site, method_: string, uri: string, outcome: CgiOutcome) {
    || HomeIsDirectory(site, method_, uri)
    || (AnswersWithError(site, method_, uri, outcome) && ErrorPageIsDirectory(site))
  }

  lemma ReplyConsistent(site: Site, method_: string, uri: string, outcome: CgiOutcome, junk: int)
    ensures var r := Respond(site, method_, uri, outcome, junk);
            && Consistent(site, r, !LiesAboutLength(site, method_, uri, outcome))
            && (r.code != OK && r.lines == [] ==> !Opens(site, PAGE_404))
            && (r.code == OK ==> r.lines != [])
  {
    var wanted := Wanted(method_, uri);
    ErrorExactly(site, method_, uri, outcome, junk);
    if method_ != "GET" && method_ != "POST" {
      ErrorReplyConsistent(site, BAD_REQUEST, junk, "");
    } else if Located(wanted.0) !in site {
      ErrorReplyConsistent(site, NOT_FOUND, junk, "");
    } else {
      var entered := Entered(site, Located(wanted.0));
      HomeIsWhatIsSent(site, method_, uri);
      ServeConsistent(site, entered.0, entered.1, wanted.1, outcome);
    }
  }

  /** No length is announced exactly when the answer is an error and there is no
      error page. An announced length is exactly that of the body sent, except
      when a directory is about to be sent as a file: the home page of the
      requested directory, or the error page of a request answered with an error. */
  lemma AdvertisedLengthIsExact(site: Site, method_: string, uri: string, outcome: CgiOutcome, junk: int)
    ensures var r := Respond(site, method_, uri, outcome, junk);
            && (Advertised(r.lines).None? <==>
                  AnswersWithError(site, method_, uri, outcome) && !Opens(site, PAGE_404))
            && (Advertised(r.lines).Some? ==>
                  (Advertised(r.lines) == Some(|SentBody(site, r)|) <==> !LiesAboutLength(site, method_, uri, outcome)))
  {
    ErrorExactly(site, method_, uri, outcome, junk);
    ReplyConsistent(site, method_, uri, outcome, junk);
  }

  /** An error page that is a directory is announced with the directory's size. */
  lemma ErrorDirectoryLies(outcome: CgiOutcome, junk: int)
    ensures var site := map["wwwroot/404.html" := Dir(true, 4096)];
            var r := Respond(site, "GET", "/x", outcome, junk);
            r.code == NOT_FOUND && Advertised(r.lines) == Some(4096) && SentBody(site, r) == ""
  {
    assert '?' !in "/x";
    NoQuery("/x");
    HeadersAdvertise("text/html", 4096);
  }

  /** So is a home page that is one. */
  lemma HomeDirectoryLies(outcome: CgiOutcome, junk: int)
    ensures var site := map["wwwroot/d" := Dir(true, 4096), "wwwroot/d/index.html" := Dir(false, 512)];
            var r := Respond(site, "GET", "/d", outcome, junk);
            r.code == OK && Advertised(r.lines) == Some(512) && SentBody(site, r) == ""
  {
    NoQuery("/d");
    assert Wanted("GET", "/d") == ("/d", false);
    assert WEB_ROOT + "/d" == "wwwroot/d" && "wwwroot/d" + "/" + HOME_PAGE == "wwwroot/d/index.html";
    HeadersAdvertise(Suffix2Desc(SuffixOf("wwwroot/d/index.html")), 512);
  }

  /** On a site whose directories have an executable bit and whose error page is
      no directory, every announced length is exact. */
  lemma {:induction false} ExactOnOrdinarySites(site: Site, method_: string, uri: string, outcome: CgiOutcome, junk: int)
    requires forall p | p in site && site[p].Dir? :: site[p].executable && p != PAGE_404
    ensures var r := Respond(site, method_, uri, outcome, junk);
            Advertised(r.lines).Some? ==> Advertised(r.lines) == Some(|SentBody(site, r)|)
  {
    AdvertisedLengthIsExact(site, method_, uri, outcome, junk);
  }

  /** Only a success can be a CGI reply, every success announces a length, and
      no other status than the four known ones occurs. */
  lemma StatusDiscipline(site: Site, method_: string, uri: string, outcome: CgiOutcome, junk: int)
    ensures var r := Respond(site, method_, uri, outcome, junk);
            && r.code in {OK, BAD_REQUEST, NOT_FOUND, SERVER_ERROR}
            && (r.code != OK ==> !r.cgi)
            && (r.code == OK ==> Advertised(r.lines).Some?)
            && (Advertised(r.lines).None? <==> r.lines == [])
            && (r.lines == [] ==> r.code != OK && !Opens(site, PAGE_404))
  {
    ReplyConsistent(site, method_, uri, outcome, junk);
  }

  /** What a path under the web root asks for. */
  function Asked(path: string): string {
    "wwwroot" + path + if path != "" && path[|path| - 1] == '/' then "index.html" else ""
  }

  /** The file a path leads to, with its data: the home page when a directory is
      asked for, by its name or with a final slash, and otherwise the file of that
      name. A directory without a home page gives its own data. */
  predicate LeadsTo(site: Site, path: string, file: string, node: Node) {
    && Asked(path) in site
    && if site[Asked(path)].Dir? then
         && file == Asked(path) + "/index.html"
         && node == if file in site then site[file] else site[Asked(path)]
       else file == Asked(path) && node == site[file]
  }

  /** Path, query and CGI flag of a request: a POST has no query and always needs a
      child, a GET needs one when it has a query. */
  predicate Splits(method_: string, uri: string, path: string, query: string, wantsCgi: bool) {
    if method_ == "POST" then path == uri && query == "" && wantsCgi
    else if '?' in uri then uri == path + "?" + query && '?' !in path && wantsCgi
    else path == uri && query == "" && !wantsCgi
  }

  lemma LocatedIs(path: string)
    ensures Located(path) == Asked(path)
  {
    var full := WEB_ROOT + path;
    assert full[|full| - 1] == if path == "" then 't' else path[|path| - 1];
    assert full + "" == full;
  }

  lemma LeadsToIs(site: Site, path: string, file: string, node: Node)
    ensures LeadsTo(site, path, file, node)
            <==> Located(path) in site && Entered(site, Located(path)) == (file, node)
  {
    LocatedIs(path);
    assert Asked(path) + "/" + HOME_PAGE == Asked(path) + "/index.html";
  }

  lemma CutAtQuestion(uri: string, path: string, query: string)
    requires uri == path + "?" + query && '?' !in path
    ensures Cut(uri, "?") == Some((path, query))
  {
    var n := |path|;
    assert uri[n..n + 1] == "?" && OccursAt(uri, "?", n);
    forall j: nat | j < n
      ensures !OccursAt(uri, "?", j)
    {
      assert uri[j] == path[j] && uri[j..j + 1][0] == uri[j];
    }
    assert FindFrom(uri, "?", 0) == Some(n);
    assert uri[..n] == path && uri[n + 1..] == query;
  }

  lemma SplitsIs(method_: string, uri: string, path: string, query: string, wantsCgi: bool)
    requires method_ == "GET" || method_ == "POST"
    requires Splits(method_, uri, path, query, wantsCgi)
    ensures Wanted(method_, uri) == (path, wantsCgi) && QueryOf(method_, uri) == query
  {
    if method_ == "GET" {
      if '?' in uri {
        CutAtQuestion(uri, path, query);
      } else {
        NoQuery(uri);
      }
    }
  }

  /** A plain page: a readable regular file without executable bits. */
  predicate PlainPage(site: Site, path: string) {
    path in site && site[path].File? && site[path].readable && !site[path].executable
  }

  /** A GET for a plain page is answered with success, the page's exact content
      and its exact length, whatever the uninitialised fields held. */
  lemma {:induction false} PlainPageIsServed(site: Site, uri: string, path: string, outcome: CgiOutcome, junk: int)
    requires '?' !in uri && PlainPage(site, path) && LeadsTo(site, uri, path, site[path])
    ensures var r := Respond(site, "GET", uri, outcome, junk);
            && r.code == OK && !r.cgi && SentBody(site, r) == site[path].content
            && r.lines == ["Content-Type: " + TypeOf(path), "Content-Length: " + Decimal(|site[path].content|)]
            && Advertised(r.lines) == Some(|site[path].content|)
  {
    SplitsIs("GET", uri, uri, "", false);
    LeadsToIs(site, uri, path, site[path]);
    TypeIs(path);
    HeadersAdvertise(TypeOf(path), |site[path].content|);
  }

  /** A cut at a question mark is at the first one. */
  lemma FirstQuestion(uri: string)
    ensures Cut(uri, "?").Some? <==> '?' in uri
    ensures Cut(uri, "?").Some? ==> '?' !in Cut(uri, "?").value.0
  {
    forall j: nat
      ensures OccursAt(uri, "?", j) <==> j < |uri| && uri[j] == '?'
    {
      assert j < |uri| ==> uri[j..j + 1] == [uri[j]];
    }
  }

  lemma NoQuery(uri: string)
    requires '?' !in uri
    ensures Cut(uri, "?").None?
  {
    forall j: nat
      ensures !OccursAt(uri, "?", j)
    {
      if j < |uri| {
        assert uri[j] in uri && uri[j..j + 1][0] == uri[j];
      }
    }
  }

  // ----------------------------------------------------------------- the wire

  function WithEnds(lines: seq<string>): seq<string> {
    seq(|lines|, i requires 0 <= i < |lines| => lines[i] + LINE_END)
  }

  function Wire(site: Site, r: Reply): string
  {
    StatusLine(r.code) + Flat(WithEnds(r.lines)) + LINE_END + SentBody(site, r)
  }

  function AllCrLf(n: nat): seq<LineEnd> { seq(n, _ => CRLF) }

  lemma {:induction false} WireIsEncoding(lines: seq<string>, body: string)
    ensures Flat(WithEnds(lines)) + LINE_END + body == EncodeHeaders(lines, AllCrLf(|lines|), CRLF, body)
  {
    if lines == [] {
      assert Flat(WithEnds(lines)) == "";
      assert "" + LINE_END + body == Bytes(CRLF) + body;
    } else {
      WireIsEncoding(lines[1..], body);
      assert WithEnds(lines)[1..] == WithEnds(lines[1..]);
      assert AllCrLf(|lines|)[1..] == AllCrLf(|lines| - 1);
      var f := Flat(WithEnds(lines[1..]));
      var e := EncodeHeaders(lines[1..], AllCrLf(|lines| - 1), CRLF, body);
      Assoc(lines[0] + LINE_END, f, LINE_END);
      Assoc(lines[0] + LINE_END, f + LINE_END, body);
      Assoc(lines[0], LINE_END, e);
    }
  }

  /** A client that skips the status line and reads header lines up to the blank
      line gets exactly the reply's header lines, and then exactly the body. */
  lemma ClientReadsReply(site: Site, method_: string, uri: string, outcome: CgiOutcome, junk: int)
    ensures var r := Respond(site, method_, uri, outcome, junk);
            && Wire(site, r)[..|StatusLine(r.code)|] == StatusLine(r.code)
            && HeaderBlock(Wire(site, r)[|StatusLine(r.code)|..]) == Some((r.lines, SentBody(site, r)))
  {
    var r := Respond(site, method_, uri, outcome, junk);
    StatusDiscipline(site, method_, uri, outcome, junk);
    ReplyConsistent(site, method_, uri, outcome, junk);
    var body := SentBody(site, r);
    var f := Flat(WithEnds(r.lines));
    Assoc(StatusLine(r.code), f, LINE_END);
    Assoc(StatusLine(r.code), f + LINE_END, body);
    assert Wire(site, r)[|StatusLine(r.code)|..] == f + LINE_END + body;
    WireIsEncoding(r.lines, body);
    CrLfAndLfSeparable(r.lines, AllCrLf(|r.lines|), CRLF, body);
    HeaderBlockOf(r.lines, AllCrLf(|r.lines|), CRLF, body);
  }
}
