/** One connection from `accept_request` to its end, seen from the parent: what is read from the
    client, and the log of everything done to the client socket, the served file, the pipe ends and
    the CGI program. System calls that may fail take their outcome from `Outcomes`. */
module Connection {
  import opened CText
  import opened LineReader
  import opened Headers
  import opened Relay
  import RequestLine
  import CgiProtocol

  /** The ends of the two pipes; `In` and `Out` are the program's input and output. */
  datatype End = InR | InW | OutR | OutW

  /** What a CGI program is told about its input: the query of a GET or the body length of a POST. */
  datatype CgiInput = Query(text: string) | Length(n: int)

  datatype Event =
    | Send(data: string)
    | CloseClient
    | OpenFile(path: string)
    | CloseFile
    | OpenEnd(end: End)
    | ShutEnd(end: End)
    | Spawn(program: string, meth: string, input: CgiInput)
    | Feed(data: string)

  datatype Outcomes = Outcomes(statOk: bool, isDir: bool, executable: bool, openOk: bool, sendfileOk: bool,
                               file: string, pipeInOk: bool, pipeOutOk: bool, forkOk: bool, output: string)

  /** The full-width exclamation mark of the error pages, as its three bytes. */
  const BANG := "\U{00ef}\U{00bc}\U{0081}"

  function ErrorPage(code: int): seq<string> {
    match code
    case 400 => ["HTTP/1.0 400 BAD REQUEST\r\n", "Content-type: text/html\r\n", "\r\n",
                 "<h>400</h><p>Bad request" + BANG + "</p>"]
    case 404 => ["HTTP/1.0 404 NOT FOUND\r\n", "Content-type: text/html\r\n", "\r\n",
                 "<h>404</h><p>Not find you request's file" + BANG + "</p>"]
    case 500 => ["HTTP/1.0 500 SERVER ERROR\r\n", "Content-type: text/html\r\n", "\r\n",
                 "<h>500</h><p>Server inner error" + BANG + "</p>"]
    case _ => []
  }

  function Sends(parts: seq<string>): (t: seq<Event>)
    ensures |t| == |parts| && forall k :: 0 <= k < |t| ==> t[k] == Send(parts[k])
  {
    seq(|parts|, k requires 0 <= k < |parts| => Send(parts[k]))
  }

  function Singletons(s: string): (parts: seq<string>)
    ensures |parts| == |s| && forall k :: 0 <= k < |s| ==> parts[k] == [s[k]]
  {
    seq(|s|, k requires 0 <= k < |s| => [s[k]])
  }

  function ErrorTrace(code: int): seq<Event> {
    Sends(ErrorPage(code)) + [CloseClient]
  }

  function HtmlTrace(path: string, o: Outcomes): seq<Event> {
    if !o.openOk then ErrorTrace(404)
    else [OpenFile(path), Send(CgiProtocol.STATUS_LINE)]
         + if o.sendfileOk then [Send(o.file), CloseFile] else [CloseFile] + ErrorTrace(500)
  }

  /** A request line as the server understands it. */
  datatype Request = Request(meth: string, path: string, query: string, marked: bool) {
    predicate IsGet() { SameIgnoringCase(meth, "GET") }
    predicate IsPost() { SameIgnoringCase(meth, "POST") }
  }

  /** The first line of the input as it lies in the zeroed buffer. */
  function FirstLine(input: string): string {
    LineIsMaximalPiece(input, ROOM);
    RequestLine.Padded(Line(input, ROOM), BUFFER_SIZE)
  }

  function RequestOf(line: string): Request {
    var meth, u := CStr(RequestLine.MethodOf(line)), CStr(RequestLine.UrlOf(line));
    if SameIgnoringCase(meth, "GET")
    then Request(meth, RequestLine.PathOf(u), RequestLine.QueryOf(u), '?' in u)
    else Request(meth, u, u, false)
  }

  function LengthFor(r: Request, header: string): int {
    if r.IsGet() then 0 else PostLength(header, 0)
  }

  function InputFor(r: Request, header: string): CgiInput {
    if r.IsGet() then Query(r.query) else Length(LengthFor(r, header))
  }

  function BodyFor(r: Request, header: string): string {
    if r.IsPost() then RelayBytes(SkipHeader(header), Rounds(LengthFor(r, header))) else ""
  }

  /** `exe_cgi` in the parent; `header` is what the socket holds behind the request line. */
  function CgiTrace(r: Request, program: string, header: string, o: Outcomes): seq<Event> {
    if LengthFor(r, header) == -1 then ErrorTrace(500)
    else [Send(CgiProtocol.STATUS_LINE)] + PipesTrace(r, program, header, o)
  }

  const OPEN_IN: seq<Event> := [OpenEnd(InR), OpenEnd(InW)]
  const OPEN_OUT: seq<Event> := [OpenEnd(OutR), OpenEnd(OutW)]
  const SHUT_IN: seq<Event> := [ShutEnd(InR), ShutEnd(InW)]
  const SHUT_OUT: seq<Event> := [ShutEnd(OutR), ShutEnd(OutW)]

  /** From the first `pipe` on: a failure closes what has been opened so far. */
  function PipesTrace(r: Request, program: string, header: string, o: Outcomes): seq<Event> {
    if !o.pipeInOk then ErrorTrace(500)
    else if !o.pipeOutOk then OPEN_IN + (ErrorTrace(500) + SHUT_IN)
    else if !o.forkOk then OPEN_IN + OPEN_OUT + (SHUT_IN + SHUT_OUT + ErrorTrace(500))
    else OPEN_IN + OPEN_OUT + ParentTrace(r, program, header, o.output)
  }

  function ParentTrace(r: Request, program: string, header: string, output: string): seq<Event> {
    [Spawn(program, r.meth, InputFor(r, header)), ShutEnd(InR), ShutEnd(OutW),
     Feed(BodyFor(r, header))]
    + Sends(Singletons(output)) + [ShutEnd(InW), ShutEnd(OutR)]
  }

  /** What `exe_cgi` leaves on the socket: a forked POST also takes the body. */
  function CgiRest(r: Request, header: string, o: Outcomes): string {
    if r.IsPost() && LengthFor(r, header) != -1 && o.pipeInOk && o.pipeOutOk && o.forkOk
    then AfterRelay(SkipHeader(header), Rounds(LengthFor(r, header)))
    else SkipHeader(header)
  }

  predicate UsesCgi(r: Request, o: Outcomes) {
    r.IsPost() || r.marked || (!o.isDir && o.executable)
  }

  /** The whole log of a connection that delivers `input`. */
  function ServeTrace(input: string, o: Outcomes): seq<Event> {
    RouteTrace(RequestOf(FirstLine(input)), AfterLine(input, ROOM), o)
  }

  function RouteTrace(r: Request, header: string, o: Outcomes): seq<Event> {
    if !r.IsGet() && !r.IsPost() then ErrorTrace(400)
    else if !o.statOk then ErrorTrace(404)
    else
      var target := RequestLine.TargetOf(r.path, o.isDir);
      (if UsesCgi(r, o) then CgiTrace(r, target, header, o) else HtmlTrace(target, o)) + [CloseClient]
  }

  /** What is left unread on the socket when the connection is done. */
  function ServeRest(input: string, o: Outcomes): string {
    RouteRest(RequestOf(FirstLine(input)), AfterLine(input, ROOM), o)
  }

  function RouteRest(r: Request, header: string, o: Outcomes): string {
    if !r.IsGet() && !r.IsPost() then header
    else if o.statOk && UsesCgi(r, o) then CgiRest(r, header, o)
    else SkipHeader(header)
  }

  /** What the fixed buffers of the source can take: the path of a request that is served, and the
      environment entry for the query of a program that is started. */
  ghost predicate FitsBuffers(input: string, o: Outcomes) {
    var r := RequestOf(FirstLine(input));
    && (r.IsGet() || r.IsPost() ==> |RequestLine.TargetOf(r.path, o.statOk && o.isDir)| < BUFFER_SIZE)
    && (r.IsGet() && o.statOk && UsesCgi(r, o) && o.pipeInOk && o.pipeOutOk && o.forkOk ==>
          |"QUERY_STRING=" + r.query| < BUFFER_SIZE)
  }

  lemma ConcatAssoc(a: seq<Event>, b: seq<Event>, c: seq<Event>)
    ensures a + b + c == a + (b + c)
  {
  }

  lemma ParentParts(before: seq<Event>, r: Request, program: string, header: string, output: string)
    ensures before + [Spawn(program, r.meth, InputFor(r, header)), ShutEnd(InR), ShutEnd(OutW)]
            + [Feed(BodyFor(r, header))] + Sends(Singletons(output)) + [ShutEnd(InW), ShutEnd(OutR)]
            == before + ParentTrace(r, program, header, output)
  {
  }

  class Session {
    const sock: Socket
    var log: seq<Event>

    constructor (sock: Socket)
      ensures this.sock == sock && log == []
    {
      this.sock := sock;
      log := [];
    }

    method SendText(data: string)
      modifies this
      ensures log == old(log) + [Send(data)]
    {
      log := log + [Send(data)];
    }

    /** `echo_error_to_client`. */
    method EchoError(code: int)
      modifies this
      ensures log == old(log) + ErrorTrace(code)
    {
      var parts, i := ErrorPage(code), 0;
      while i < |parts|
        invariant 0 <= i <= |parts|
        invariant log == old(log) + Sends(parts)[..i]
      {
        SendText(parts[i]);
        i := i + 1;
      }
      log := log + [CloseClient];
    }

    /** `echo_html`. */
    method EchoHtml(path: string, o: Outcomes)
      modifies this
      ensures log == old(log) + HtmlTrace(path, o)
      ensures Disciplined(log[|old(log)|..], path, if o.openOk && o.sendfileOk then 0 else 1)
    {
      SendHtml(path, o);
      HtmlDisciplined(path, o);
      AddedDisciplined(old(log), HtmlTrace(path, o), path, if o.openOk && o.sendfileOk then 0 else 1);
    }

    method SendHtml(path: string, o: Outcomes)
      modifies this
      ensures log == old(log) + HtmlTrace(path, o)
    {
      if !o.openOk {
        EchoError(404);
        return;
      }
      log := log + [OpenFile(path)];
      SendText(CgiProtocol.STATUS_LINE);
      if !o.sendfileOk {
        log := log + [CloseFile];
        EchoError(500);
        return;
      }
      SendText(o.file);
      log := log + [CloseFile];
    }

    method Shut(end: End)
      modifies this
      ensures log == old(log) + [ShutEnd(end)]
    {
      log := log + [ShutEnd(end)];
    }

    method ShutInput()
      modifies this
      ensures log == old(log) + SHUT_IN
    {
      Shut(InR);
      Shut(InW);
    }

    method ShutOutput()
      modifies this
      ensures log == old(log) + SHUT_OUT
    {
      Shut(OutR);
      Shut(OutW);
    }

    /** The loop that drains the child's output to the client. */
    method Drain(output: string)
      modifies this
      ensures log == old(log) + Sends(Singletons(output))
    {
      var i := 0;
      while i < |output|
        invariant 0 <= i <= |output|
        invariant log == old(log) + Sends(Singletons(output))[..i]
      {
        SendText([output[i]]);
        i := i + 1;
      }
    }

    /** `exe_cgi`. */
    method ExeCgi(program: string, r: Request, o: Outcomes)
      modifies this, sock
      ensures log == old(log) + CgiTrace(r, program, old(sock.input), o)
      ensures sock.input == CgiRest(r, old(sock.input), o)
    {
      ghost var header := sock.input;
      var contentLength := ReadHeader(r);
      if contentLength == -1 {
        EchoError(500);
      } else {
        Answer(program, r, contentLength, o, header);
      }
    }

    /** The status line goes out before anything else can fail. */
    method Answer(program: string, r: Request, contentLength: int, o: Outcomes, ghost header: string)
      requires contentLength == LengthFor(r, header) != -1 && sock.input == SkipHeader(header)
      modifies this, sock
      ensures log == old(log) + ([Send(CgiProtocol.STATUS_LINE)] + PipesTrace(r, program, header, o))
      ensures sock.input == CgiRest(r, header, o)
    {
      SendText(CgiProtocol.STATUS_LINE);
      RunChild(program, r, contentLength, o, header);
      ConcatAssoc(old(log), [Send(CgiProtocol.STATUS_LINE)], PipesTrace(r, program, header, o));
    }

    /** The header loops of `exe_cgi`; a GET has no body and its length stays 0. */
    method ReadHeader(r: Request) returns (contentLength: int)
      modifies sock
      ensures contentLength == LengthFor(r, old(sock.input))
      ensures sock.input == SkipHeader(old(sock.input))
    {
      contentLength := 0;
      if r.IsGet() {
        ClearHeader(sock);
      } else {
        contentLength := ReadPostHeader(sock);
      }
    }

    /** The pipes and the fork, with the cleaning up after a failure. */
    method RunChild(program: string, r: Request, contentLength: int, o: Outcomes, ghost header: string)
      requires contentLength == LengthFor(r, header) != -1 && sock.input == SkipHeader(header)
      modifies this, sock
      ensures log == old(log) + PipesTrace(r, program, header, o)
      ensures CgiDisciplined(log[|old(log)|..], if o.pipeInOk && o.pipeOutOk && o.forkOk then 0 else 1)
      ensures sock.input == CgiRest(r, header, o)
    {
      StartPipes(program, r, contentLength, o, header);
      PipesDisciplined(r, program, header, o);
      AddedCgi(old(log), PipesTrace(r, program, header, o), if o.pipeInOk && o.pipeOutOk && o.forkOk then 0 else 1);
    }

    method StartPipes(program: string, r: Request, contentLength: int, o: Outcomes, ghost header: string)
      requires contentLength == LengthFor(r, header) != -1 && sock.input == SkipHeader(header)
      modifies this, sock
      ensures log == old(log) + PipesTrace(r, program, header, o)
      ensures sock.input == CgiRest(r, header, o)
    {
      ghost var before := log;
      if !o.pipeInOk {
        EchoError(500);
        return;
      }
      log := log + OPEN_IN;
      if !o.pipeOutOk {
        AbortPipe();
        ConcatAssoc(before, OPEN_IN, ErrorTrace(500) + SHUT_IN);
        return;
      }
      log := log + OPEN_OUT;
      ConcatAssoc(before, OPEN_IN, OPEN_OUT);
      if !o.forkOk {
        AbortFork();
        ConcatAssoc(before, OPEN_IN + OPEN_OUT, SHUT_IN + SHUT_OUT + ErrorTrace(500));
        return;
      }
      Converse(program, r, contentLength, o.output, header);
      ConcatAssoc(before, OPEN_IN + OPEN_OUT, ParentTrace(r, program, header, o.output));
    }

    /** The second `pipe` failed. */
    method AbortPipe()
      modifies this
      ensures log == old(log) + (ErrorTrace(500) + SHUT_IN)
    {
      EchoError(500);
      ShutInput();
    }

    /** `fork` failed. */
    method AbortFork()
      modifies this
      ensures log == old(log) + (SHUT_IN + SHUT_OUT + ErrorTrace(500))
    {
      ShutInput();
      ShutOutput();
      EchoError(500);
    }

    /** The parent after the fork: both relay loops and the closing of its two ends. */
    method Converse(program: string, r: Request, contentLength: int, output: string, ghost header: string)
      requires contentLength == LengthFor(r, header) && sock.input == SkipHeader(header)
      modifies this, sock
      ensures log == old(log) + ParentTrace(r, program, header, output)
      ensures sock.input == if r.IsPost() then AfterRelay(SkipHeader(header), Rounds(contentLength)) else SkipHeader(header)
    {
      ghost var before := log;
      StartChild(program, r, if r.IsGet() then Query(r.query) else Length(contentLength));
      FeedChild(r, contentLength, header);
      Finish(output);
      ParentParts(before, r, program, header, output);
    }

    /** The relay of the body, for a POST. */
    method FeedChild(r: Request, contentLength: int, ghost header: string)
      requires contentLength == LengthFor(r, header) && sock.input == SkipHeader(header)
      modifies this, sock
      ensures log == old(log) + [Feed(BodyFor(r, header))]
      ensures sock.input == if r.IsPost() then AfterRelay(SkipHeader(header), Rounds(contentLength)) else SkipHeader(header)
    {
      var written := "";
      if r.IsPost() {
        written := RelayBody(sock, contentLength);
      }
      log := log + [Feed(written)];
    }

    method StartChild(program: string, r: Request, input: CgiInput)
      modifies this
      ensures log == old(log) + [Spawn(program, r.meth, input), ShutEnd(InR), ShutEnd(OutW)]
    {
      log := log + [Spawn(program, r.meth, input)];
      Shut(InR);
      Shut(OutW);
    }

    /** Drain the output, then close the two ends that are left. */
    method Finish(output: string)
      modifies this
      ensures log == old(log) + Sends(Singletons(output)) + [ShutEnd(InW), ShutEnd(OutR)]
    {
      Drain(output);
      Shut(InW);
      Shut(OutR);
    }

    /** `accept_request`. */
    method AcceptRequest(o: Outcomes)
      requires RequestLine.UrlTerminated(FirstLine(sock.input)) && FitsBuffers(sock.input, o)
      modifies this, sock
      ensures log == old(log) + ServeTrace(old(sock.input), o)
      ensures DisciplinedConnection(log[|old(log)|..], old(sock.input), o)
      ensures sock.input == ServeRest(old(sock.input), o)
    {
      ghost var input := sock.input;
      var r := ReadRequest();
      Route(r, o);
    }

    /** From the method check to the last close. */
    method Route(r: Request, o: Outcomes)
      modifies this, sock
      ensures log == old(log) + RouteTrace(r, old(sock.input), o)
      ensures Disciplined(log[|old(log)|..], RequestLine.TargetOf(r.path, o.isDir), ClosesOf(r, old(sock.input), o))
      ensures sock.input == RouteRest(r, old(sock.input), o)
    {
      ghost var header := sock.input;
      Dispatch(r, o);
      RouteDiscipline(r, header, o);
      AddedDisciplined(old(log), RouteTrace(r, header, o), RequestLine.TargetOf(r.path, o.isDir), ClosesOf(r, header, o));
    }

    method Dispatch(r: Request, o: Outcomes)
      modifies this, sock
      ensures log == old(log) + RouteTrace(r, old(sock.input), o)
      ensures sock.input == RouteRest(r, old(sock.input), o)
    {
      if !r.IsGet() && !r.IsPost() {
        EchoError(400);
        return;
      }
      var cgi := r.IsPost() || r.marked;
      if !o.statOk {
        ClearHeader(sock);
        EchoError(404);
        return;
      } else if o.isDir {
      } else if o.executable {
        cgi := true;
      }
      var target := RequestLine.TargetOf(r.path, o.isDir);
      Serve(cgi, target, r, o);
      log := log + [CloseClient];
    }

    /** The program or the file. */
    method Serve(cgi: bool, target: string, r: Request, o: Outcomes)
      modifies this, sock
      ensures log == old(log) + if cgi then CgiTrace(r, target, old(sock.input), o) else HtmlTrace(target, o)
      ensures sock.input == if cgi then CgiRest(r, old(sock.input), o) else SkipHeader(old(sock.input))
    {
      if cgi {
        ExeCgi(target, r, o);
      } else {
        ClearHeader(sock);
        EchoHtml(target, o);
      }
    }

    /** Reading, cutting up and splitting the request line. */
    method ReadRequest() returns (r: Request)
      requires RequestLine.UrlTerminated(FirstLine(sock.input))
      modifies sock
      ensures r == RequestOf(FirstLine(old(sock.input)))
      ensures sock.input == AfterLine(old(sock.input), ROOM)
    {
      var buffer := new char[BUFFER_SIZE](_ => NUL);
      var meth := new char[RequestLine.METHOD_SIZE](_ => NUL);
      var url := new char[RequestLine.BUFFER_SIZE](_ => NUL);
      ghost var line := FirstLine(sock.input);
      var n := GetLineZeroed(sock, buffer);
      assert buffer[..] == line;
      RequestLine.Tokenise(buffer, meth, url);
      var m, u := CStr(meth[..]), CStr(url[..]);
      CStrPadded(RequestLine.MethodOf(line), RequestLine.METHOD_SIZE);
      CStrPadded(RequestLine.UrlOf(line), RequestLine.BUFFER_SIZE);
      r := Request(m, u, u, false);
      if SameIgnoringCase(m, "GET") {
        var marked, q := RequestLine.SplitQuery(url);
        r := Request(m, CStr(url[..]), CStr(url[q..]), marked);
      }
    }
  }

  lemma CStrPadded(s: string, n: nat)
    requires |s| < n
    ensures CStr(RequestLine.Padded(s, n)) == CStr(s)
    ensures NUL in RequestLine.Padded(s, n)
  {
    var p := RequestLine.Padded(s, n);
    assert p[|s|] == NUL;
    IndexIs(p, NUL, IndexOf(s, NUL));
  }

  /** A connection that delivers nothing sends the tokeniser past the end of its buffer. */
  lemma EmptyConnection()
    ensures !RequestLine.UrlTerminated(FirstLine(""))
    ensures RequestLine.LastTested(FirstLine("")) >= BUFFER_SIZE
  {
    var line := FirstLine("");
    var rest := line[|RequestLine.MethodOf(line)|..];
    assert forall k :: 0 <= k < |line| ==> line[k] == NUL;
    assert rest != "" ==> rest[0] == NUL;
    assert RequestLine.FromUrl(line) == rest;
    assert !RequestLine.HasSpace(rest);
    RequestLine.StaysInside(line);
  }

  // ------------------------------------------------------ properties of the log

  function Count(t: seq<Event>, e: Event): nat {
    multiset(t)[e]
  }

  lemma CountConcat(a: seq<Event>, b: seq<Event>, e: Event)
    ensures Count(a + b, e) == Count(a, e) + Count(b, e)
  {
  }

  predicate NothingSentAfterClose(t: seq<Event>) {
    forall i, j :: 0 <= i < j < |t| && t[i] == CloseClient ==> !t[j].Send?
  }

  /** Each pipe end is opened at most once, and closed exactly as often, later. */
  ghost predicate EndsBalanced(t: seq<Event>) {
    && (forall e: End :: Count(t, OpenEnd(e)) == Count(t, ShutEnd(e)) <= 1)
    && ShutsFollowOpens(t)
  }

  predicate ShutsFollowOpens(t: seq<Event>) {
    forall i :: 0 <= i < |t| && t[i].ShutEnd? ==> OpenEnd(t[i].end) in t[..i]
  }

  /** The file is opened at most once, and closed exactly as often, later; no other file is opened. */
  ghost predicate FileBalanced(t: seq<Event>, path: string) {
    && Count(t, OpenFile(path)) == Count(t, CloseFile) <= 1
    && (forall p: string :: p != path ==> OpenFile(p) !in t)
    && CloseFollowsOpen(t, path)
  }

  predicate CloseFollowsOpen(t: seq<Event>, path: string) {
    forall i :: 0 <= i < |t| && t[i] == CloseFile ==> OpenFile(path) in t[..i]
  }

  /** An error that `exe_cgi` or `echo_html` reports itself, closing the client. */
  predicate InnerError(r: Request, header: string, o: Outcomes) {
    && (r.IsGet() || r.IsPost()) && o.statOk
    && if UsesCgi(r, o) then LengthFor(r, header) == -1 || !o.pipeInOk || !o.pipeOutOk || !o.forkOk
       else !o.openOk || !o.sendfileOk
  }

  /** How often the client is closed. */
  function ClosesOf(r: Request, header: string, o: Outcomes): nat {
    if InnerError(r, header, o) then 2 else 1
  }

  lemma SafeConcat(a: seq<Event>, b: seq<Event>)
    requires NothingSentAfterClose(a) && NothingSentAfterClose(b)
    requires CloseClient !in a || forall k :: 0 <= k < |b| ==> !b[k].Send?
    ensures NothingSentAfterClose(a + b)
  {
  }

  lemma SendsOnly(parts: seq<string>, e: Event)
    requires !e.Send?
    ensures Count(Sends(parts), e) == 0
  {
    assert e !in Sends(parts);
  }

  lemma ErrorFacts(code: int, e: Event)
    requires !e.Send?
    ensures Count(ErrorTrace(code), e) == if e == CloseClient then 1 else 0
    ensures NothingSentAfterClose(ErrorTrace(code))
  {
    SendsOnly(ErrorPage(code), e);
    CountConcat(Sends(ErrorPage(code)), [CloseClient], e);
  }

  lemma ParentFacts(r: Request, program: string, header: string, output: string, e: Event)
    requires !e.Send?
    ensures var t, n := ParentTrace(r, program, header, output), Count(ParentTrace(r, program, header, output), e);
            match e
            case CloseClient => n == 0
            case OpenFile(_) => n == 0
            case CloseFile => n == 0
            case OpenEnd(_) => n == 0
            case ShutEnd(_) => n == 1
            case _ => true
  {
    var a := [Spawn(program, r.meth, InputFor(r, header)), ShutEnd(InR), ShutEnd(OutW),
              Feed(BodyFor(r, header))];
    var b := [ShutEnd(InW), ShutEnd(OutR)];
    SendsOnly(Singletons(output), e);
    CountConcat(a + Sends(Singletons(output)), b, e);
    CountConcat(a, Sends(Singletons(output)), e);
    if e.ShutEnd? {
      match e.end {
        case InR =>
        case InW =>
        case OutR =>
        case OutW =>
      }
    }
  }

  /** The pipe ends that `exe_cgi` creates under the given outcomes. */
  predicate Creates(o: Outcomes, e: End) {
    o.pipeInOk && (e == InR || e == InW || o.pipeOutOk)
  }

  lemma EndCounts(e: Event)
    requires !e.Send?
    ensures Count(OPEN_IN, e) == if e.OpenEnd? && (e.end.InR? || e.end.InW?) then 1 else 0
    ensures Count(OPEN_OUT, e) == if e.OpenEnd? && (e.end.OutR? || e.end.OutW?) then 1 else 0
    ensures Count(SHUT_IN, e) == if e.ShutEnd? && (e.end.InR? || e.end.InW?) then 1 else 0
    ensures Count(SHUT_OUT, e) == if e.ShutEnd? && (e.end.OutR? || e.end.OutW?) then 1 else 0
  {
  }

  lemma Count3(a: seq<Event>, b: seq<Event>, c: seq<Event>, e: Event)
    ensures Count(a + (b + c), e) == Count(a, e) + Count(b, e) + Count(c, e)
    ensures Count(a + b + c, e) == Count(a, e) + Count(b, e) + Count(c, e)
  {
    CountConcat(a, b + c, e);
    CountConcat(a + b, c, e);
  }

  lemma AbortCounts(error: seq<Event>, e: Event)
    requires !e.Send? && Count(error, e) == if e == CloseClient then 1 else 0
    ensures Count(OPEN_IN + (error + SHUT_IN), e)
            == if e == CloseClient || ((e.OpenEnd? || e.ShutEnd?) && (e.end.InR? || e.end.InW?)) then 1 else 0
    ensures Count(OPEN_IN + OPEN_OUT + (SHUT_IN + SHUT_OUT + error), e)
            == if e == CloseClient || e.OpenEnd? || e.ShutEnd? then 1 else 0
  {
    EndCounts(e);
    Count3(OPEN_IN, error, SHUT_IN, e);
    Count3(SHUT_IN, SHUT_OUT, error, e);
    Count3(OPEN_IN, OPEN_OUT, SHUT_IN + SHUT_OUT + error, e);
  }

  lemma FailedPipesCounts(r: Request, program: string, header: string, o: Outcomes, e: Event)
    requires !e.Send? && !(o.pipeInOk && o.pipeOutOk && o.forkOk)
    ensures var n := Count(PipesTrace(r, program, header, o), e);
            && (e.OpenEnd? || e.ShutEnd? ==> n == if Creates(o, e.end) then 1 else 0)
            && (e == CloseClient ==> n == 1)
            && (e.OpenFile? || e.CloseFile? ==> n == 0)
  {
    ErrorFacts(500, e);
    AbortCounts(ErrorTrace(500), e);
    FailedPipesAre(r, program, header, o);
  }

  /** The log of a failure is one of three. */
  lemma FailedPipesAre(r: Request, program: string, header: string, o: Outcomes)
    requires !(o.pipeInOk && o.pipeOutOk && o.forkOk)
    ensures var error := ErrorTrace(500);
            PipesTrace(r, program, header, o)
            == if !o.pipeInOk then error
               else if !o.pipeOutOk then OPEN_IN + (error + SHUT_IN)
               else OPEN_IN + OPEN_OUT + (SHUT_IN + SHUT_OUT + error)
  {
  }

  lemma ForkedPipesCounts(r: Request, program: string, header: string, o: Outcomes, e: Event)
    requires !e.Send? && o.pipeInOk && o.pipeOutOk && o.forkOk
    ensures var n := Count(PipesTrace(r, program, header, o), e);
            && (e.OpenEnd? || e.ShutEnd? ==> n == 1)
            && (e == CloseClient || e.OpenFile? || e.CloseFile? ==> n == 0)
  {
    EndCounts(e);
    ParentFacts(r, program, header, o.output, e);
    Count3(OPEN_IN, OPEN_OUT, ParentTrace(r, program, header, o.output), e);
  }

  lemma NeverClosed(t: seq<Event>)
    requires Count(t, CloseClient) == 0
    ensures CloseClient !in t && NothingSentAfterClose(t)
  {
    assert CloseClient !in multiset(t);
  }

  lemma PipesSafe(r: Request, program: string, header: string, o: Outcomes)
    ensures NothingSentAfterClose(PipesTrace(r, program, header, o))
  {
    ErrorFacts(500, CloseClient);
    if !o.pipeInOk {
    } else if !o.pipeOutOk {
      SafeConcat(ErrorTrace(500), SHUT_IN);
      SafeConcat(OPEN_IN, ErrorTrace(500) + SHUT_IN);
    } else if !o.forkOk {
      SafeConcat(SHUT_IN + SHUT_OUT, ErrorTrace(500));
      SafeConcat(OPEN_IN + OPEN_OUT, SHUT_IN + SHUT_OUT + ErrorTrace(500));
    } else {
      ForkedPipesCounts(r, program, header, o, CloseClient);
      NeverClosed(PipesTrace(r, program, header, o));
    }
  }

  lemma OpensThenShuts(a: seq<Event>, b: seq<Event>)
    requires forall i :: 0 <= i < |a| ==> !a[i].ShutEnd?
    requires forall i :: 0 <= i < |b| && b[i].ShutEnd? ==> OpenEnd(b[i].end) in a
    ensures ShutsFollowOpens(a + b)
  {
    forall i | 0 <= i < |a + b| && (a + b)[i].ShutEnd?
      ensures OpenEnd((a + b)[i].end) in (a + b)[..i]
    {
      assert (a + b)[..i] == a + b[..i - |a|];
    }
  }

  lemma OpenedAll(e: End)
    ensures OpenEnd(e) in OPEN_IN + OPEN_OUT
    ensures e.InR? || e.InW? ==> OpenEnd(e) in OPEN_IN
  {
    match e
    case InR => assert OPEN_IN[0] == OpenEnd(e);
    case InW => assert OPEN_IN[1] == OpenEnd(e);
    case OutR => assert OPEN_OUT[0] == OpenEnd(e);
    case OutW => assert OPEN_OUT[1] == OpenEnd(e);
  }

  lemma PipesOrdered(r: Request, program: string, header: string, o: Outcomes)
    ensures ShutsFollowOpens(PipesTrace(r, program, header, o))
  {
    forall e: End
      ensures OpenEnd(e) in OPEN_IN + OPEN_OUT
      ensures e.InR? || e.InW? ==> OpenEnd(e) in OPEN_IN
    {
      OpenedAll(e);
    }
    if !o.pipeInOk {
    } else if !o.pipeOutOk {
      OpensThenShuts(OPEN_IN, ErrorTrace(500) + SHUT_IN);
    } else if !o.forkOk {
      OpensThenShuts(OPEN_IN + OPEN_OUT, SHUT_IN + SHUT_OUT + ErrorTrace(500));
    } else {
      OpensThenShuts(OPEN_IN + OPEN_OUT, ParentTrace(r, program, header, o.output));
    }
  }

  lemma FilesUntouched(t: seq<Event>)
    requires forall e: Event :: e.OpenFile? || e.CloseFile? ==> Count(t, e) == 0
    ensures forall path: string :: FileBalanced(t, path)
  {
    forall p: string ensures OpenFile(p) !in t {
      assert Count(t, OpenFile(p)) == 0;
    }
    assert Count(t, CloseFile) == 0;
    assert CloseFile !in multiset(t);
  }

  /** Putting events that concern no pipe end around a log keeps the order of its ends. */
  lemma WrapKeepsOrder(a: seq<Event>, t: seq<Event>, b: seq<Event>)
    requires ShutsFollowOpens(t)
    requires forall i :: 0 <= i < |a| ==> !a[i].ShutEnd?
    requires forall i :: 0 <= i < |b| ==> !b[i].ShutEnd?
    ensures ShutsFollowOpens(a + t + b)
  {
    var w := a + t + b;
    forall i | 0 <= i < |w| && w[i].ShutEnd? ensures OpenEnd(w[i].end) in w[..i] {
      assert w[..i] == a + t[..i - |a|];
    }
  }

  ghost predicate CgiDisciplined(t: seq<Event>, closes: nat) {
    && Count(t, CloseClient) == closes
    && NothingSentAfterClose(t) && EndsBalanced(t)
    && forall e: Event :: e.OpenFile? || e.CloseFile? ==> Count(t, e) == 0
  }

  lemma PipesCounts(r: Request, program: string, header: string, o: Outcomes, e: Event)
    requires !e.Send?
    ensures var n := Count(PipesTrace(r, program, header, o), e);
            && (e.OpenEnd? || e.ShutEnd? ==> n == if Creates(o, e.end) then 1 else 0)
            && (e == CloseClient ==> n == if o.pipeInOk && o.pipeOutOk && o.forkOk then 0 else 1)
            && (e.OpenFile? || e.CloseFile? ==> n == 0)
  {
    if o.pipeInOk && o.pipeOutOk && o.forkOk {
      ForkedPipesCounts(r, program, header, o, e);
    } else {
      FailedPipesCounts(r, program, header, o, e);
    }
  }

  ghost predicate PipeCounts(t: seq<Event>, o: Outcomes, e: Event) {
    var n := Count(t, e);
    && (e.OpenEnd? || e.ShutEnd? ==> n == if Creates(o, e.end) then 1 else 0)
    && (e == CloseClient ==> n == if o.pipeInOk && o.pipeOutOk && o.forkOk then 0 else 1)
    && (e.OpenFile? || e.CloseFile? ==> n == 0)
  }

  lemma DisciplineFromCounts(t: seq<Event>, o: Outcomes)
    requires NothingSentAfterClose(t) && ShutsFollowOpens(t)
    requires forall e: Event :: !e.Send? ==> PipeCounts(t, o, e)
    ensures CgiDisciplined(t, if o.pipeInOk && o.pipeOutOk && o.forkOk then 0 else 1)
  {
    assert PipeCounts(t, o, CloseClient);
    forall e: End
      ensures Count(t, OpenEnd(e)) == Count(t, ShutEnd(e)) <= 1
    {
      assert PipeCounts(t, o, OpenEnd(e)) && PipeCounts(t, o, ShutEnd(e));
    }
    forall e: Event | e.OpenFile? || e.CloseFile? ensures Count(t, e) == 0 {
      assert PipeCounts(t, o, e);
    }
  }

  lemma PipesDisciplined(r: Request, program: string, header: string, o: Outcomes)
    ensures CgiDisciplined(PipesTrace(r, program, header, o), if o.pipeInOk && o.pipeOutOk && o.forkOk then 0 else 1)
  {
    var t := PipesTrace(r, program, header, o);
    PipesSafe(r, program, header, o);
    PipesOrdered(r, program, header, o);
    forall e: Event | !e.Send? ensures PipeCounts(t, o, e) {
      PipesCounts(r, program, header, o, e);
    }
    DisciplineFromCounts(t, o);
  }

  /** Sending first and closing the client last. */
  lemma WrapDisciplined(a: seq<Event>, t: seq<Event>, b: seq<Event>, closes: nat)
    requires forall k :: 0 <= k < |a| ==> a[k].Send?
    requires b == [] || b == [CloseClient]
    requires CgiDisciplined(t, closes)
    ensures CgiDisciplined(a + t + b, |b| + closes)
  {
    SafeConcat(a, t);
    SafeConcat(a + t, b);
    WrapKeepsOrder(a, t, b);
    forall e: Event | !e.Send? ensures Count(a + t + b, e) == Count(t, e) + if e == CloseClient then |b| else 0 {
      Count3(a, t, b, e);
      assert e !in a;
    }
  }

  lemma ErrorDisciplined(code: int)
    ensures CgiDisciplined(ErrorTrace(code), 1)
  {
    forall e: Event | !e.Send? {
      ErrorFacts(code, e);
    }
  }

  lemma CgiTraceDisciplined(r: Request, program: string, header: string, o: Outcomes)
    ensures CgiDisciplined(CgiTrace(r, program, header, o),
                           if LengthFor(r, header) == -1 || !o.pipeInOk || !o.pipeOutOk || !o.forkOk then 1 else 0)
  {
    if LengthFor(r, header) == -1 {
      ErrorDisciplined(500);
    } else {
      var t := PipesTrace(r, program, header, o);
      PipesDisciplined(r, program, header, o);
      WrapDisciplined([Send(CgiProtocol.STATUS_LINE)], t, [], if o.pipeInOk && o.pipeOutOk && o.forkOk then 0 else 1);
      assert [Send(CgiProtocol.STATUS_LINE)] + t + [] == [Send(CgiProtocol.STATUS_LINE)] + t;
    }
  }

  predicate HtmlCounts(t: seq<Event>, path: string, o: Outcomes, e: Event) {
    var n := Count(t, e);
    match e
    case CloseClient => n == if o.openOk && o.sendfileOk then 0 else 1
    case OpenFile(p) => n == if o.openOk && p == path then 1 else 0
    case CloseFile => n == if o.openOk then 1 else 0
    case _ => n == 0
  }

  lemma HtmlFacts(path: string, o: Outcomes, e: Event)
    requires !e.Send?
    ensures NothingSentAfterClose(HtmlTrace(path, o))
    ensures HtmlCounts(HtmlTrace(path, o), path, o, e)
  {
    ErrorFacts(404, e);
    ErrorFacts(500, e);
    HtmlPartFacts([OpenFile(path), Send(CgiProtocol.STATUS_LINE)], ErrorTrace(500), path, o.file, e);
  }

  lemma HtmlPartFacts(opening: seq<Event>, error: seq<Event>, path: string, file: string, e: Event)
    requires !e.Send? && Count(error, e) == (if e == CloseClient then 1 else 0) && NothingSentAfterClose(error)
    requires |opening| == 2 && opening[0] == OpenFile(path) && opening[1].Send?
    ensures NothingSentAfterClose(opening + ([CloseFile] + error))
    ensures NothingSentAfterClose(opening + [Send(file), CloseFile])
    ensures Count(opening + ([CloseFile] + error), e)
            == if e == OpenFile(path) || e == CloseFile || e == CloseClient then 1 else 0
    ensures Count(opening + [Send(file), CloseFile], e) == if e == OpenFile(path) || e == CloseFile then 1 else 0
  {
    SafeConcat([CloseFile], error);
    SafeConcat(opening, [CloseFile] + error);
    assert opening == [OpenFile(path), opening[1]];
    Count3(opening, [CloseFile], error, e);
    CountConcat(opening, [Send(file), CloseFile], e);
  }

  ghost predicate Disciplined(t: seq<Event>, path: string, closes: nat) {
    && NothingSentAfterClose(t)
    && Count(t, CloseClient) == closes
    && EndsBalanced(t)
    && FileBalanced(t, path)
  }

  /** A disciplined log in which the client is closed twice exactly after an inner error. */
  ghost predicate DisciplinedConnection(t: seq<Event>, input: string, o: Outcomes) {
    var r, header := RequestOf(FirstLine(input)), AfterLine(input, ROOM);
    Disciplined(t, RequestLine.TargetOf(r.path, o.isDir), ClosesOf(r, header, o))
  }

  lemma AddedDisciplined(before: seq<Event>, t: seq<Event>, path: string, closes: nat)
    requires Disciplined(t, path, closes)
    ensures Disciplined((before + t)[|before|..], path, closes)
  {
    assert (before + t)[|before|..] == t;
  }

  lemma AddedCgi(before: seq<Event>, t: seq<Event>, closes: nat)
    requires CgiDisciplined(t, closes)
    ensures CgiDisciplined((before + t)[|before|..], closes)
  {
    assert (before + t)[|before|..] == t;
  }

  lemma FileOrder(path: string, o: Outcomes)
    ensures CloseFollowsOpen(HtmlTrace(path, o), path)
  {
    var h := HtmlTrace(path, o);
    if o.openOk {
      assert h[0] == OpenFile(path);
    }
  }

  lemma HtmlBalanced(h: seq<Event>, path: string, o: Outcomes)
    requires NothingSentAfterClose(h) && CloseFollowsOpen(h, path)
    requires forall e: Event :: !e.Send? ==> HtmlCounts(h, path, o, e)
    ensures Disciplined(h, path, if o.openOk && o.sendfileOk then 0 else 1)
  {
    assert HtmlCounts(h, path, o, CloseFile) && HtmlCounts(h, path, o, OpenFile(path)) && HtmlCounts(h, path, o, CloseClient);
    forall p: string | p != path ensures OpenFile(p) !in h {
      assert HtmlCounts(h, path, o, OpenFile(p)) && Count(h, OpenFile(p)) == 0;
    }
    forall e: End ensures Count(h, OpenEnd(e)) == Count(h, ShutEnd(e)) == 0 && ShutEnd(e) !in h {
      assert HtmlCounts(h, path, o, OpenEnd(e)) && HtmlCounts(h, path, o, ShutEnd(e));
    }
    forall i | 0 <= i < |h| ensures !h[i].ShutEnd? {
      assert h[i] in h;
    }
  }

  lemma HtmlDisciplined(path: string, o: Outcomes)
    ensures Disciplined(HtmlTrace(path, o), path, if o.openOk && o.sendfileOk then 0 else 1)
  {
    forall e: Event | !e.Send? ensures HtmlCounts(HtmlTrace(path, o), path, o, e) {
      HtmlFacts(path, o, e);
    }
    HtmlFacts(path, o, CloseClient);
    FileOrder(path, o);
    HtmlBalanced(HtmlTrace(path, o), path, o);
  }

  /** `accept_request` closes the client last, once more if an error was reported before. */
  lemma CloseLast(t: seq<Event>, path: string, closes: nat)
    requires Disciplined(t, path, closes)
    ensures Disciplined(t + [CloseClient], path, closes + 1)
  {
    SafeConcat(t, [CloseClient]);
    CountConcat(t, [CloseClient], CloseClient);
    EndsStayBalanced(t);
    FileStaysBalanced(t, path);
  }

  lemma EndsStayBalanced(t: seq<Event>)
    requires EndsBalanced(t)
    ensures EndsBalanced(t + [CloseClient])
  {
    var w := t + [CloseClient];
    forall e: Event | e != CloseClient ensures Count(w, e) == Count(t, e) {
      CountConcat(t, [CloseClient], e);
    }
    WrapKeepsOrder([], t, [CloseClient]);
    assert [] + t + [CloseClient] == w;
  }

  lemma FileStaysBalanced(t: seq<Event>, path: string)
    requires FileBalanced(t, path)
    ensures FileBalanced(t + [CloseClient], path)
  {
    var w := t + [CloseClient];
    forall e: Event ensures Count(w, e) == Count(t, e) + if e == CloseClient then 1 else 0 {
      CountConcat(t, [CloseClient], e);
    }
    forall i | 0 <= i < |w| && w[i] == CloseFile ensures OpenFile(path) in w[..i] {
      assert w[..i] == t[..i];
    }
  }

  lemma FilelessDiscipline(t: seq<Event>, path: string, closes: nat)
    requires CgiDisciplined(t, closes)
    ensures Disciplined(t, path, closes)
  {
    FilesUntouched(t);
  }

  lemma CgiConnection(r: Request, path: string, header: string, o: Outcomes)
    ensures Disciplined(CgiTrace(r, path, header, o) + [CloseClient], path,
                        if LengthFor(r, header) == -1 || !o.pipeInOk || !o.pipeOutOk || !o.forkOk then 2 else 1)
  {
    var closes := if LengthFor(r, header) == -1 || !o.pipeInOk || !o.pipeOutOk || !o.forkOk then 1 else 0;
    CgiTraceDisciplined(r, path, header, o);
    FilelessDiscipline(CgiTrace(r, path, header, o), path, closes);
    CloseLast(CgiTrace(r, path, header, o), path, closes);
  }

  lemma ErrorConnection(status: int, path: string)
    ensures Disciplined(ErrorTrace(status), path, 1)
  {
    ErrorDisciplined(status);
    FilelessDiscipline(ErrorTrace(status), path, 1);
  }

  lemma RouteDiscipline(r: Request, header: string, o: Outcomes)
    ensures Disciplined(RouteTrace(r, header, o), RequestLine.TargetOf(r.path, o.isDir), ClosesOf(r, header, o))
  {
    var target := RequestLine.TargetOf(r.path, o.isDir);
    if !r.IsGet() && !r.IsPost() {
      ErrorConnection(400, target);
    } else if !o.statOk {
      ErrorConnection(404, target);
    } else if UsesCgi(r, o) {
      CgiConnection(r, target, header, o);
    } else {
      HtmlDisciplined(target, o);
      CloseLast(HtmlTrace(target, o), target, if o.openOk && o.sendfileOk then 0 else 1);
    }
  }

  /** Whichever calls fail: nothing is sent after the client socket has been closed; it is closed once,
      or twice exactly when `exe_cgi` or `echo_html` reported an error of their own; each pipe end
      created is closed exactly once, after its creation; and so is the file. `AcceptRequest` makes
      this a contract of the code, for all inputs its buffers can take. */
  lemma ConnectionDiscipline(input: string, o: Outcomes)
    ensures DisciplinedConnection(ServeTrace(input, o), input, o)
  {
    RouteDiscipline(RequestOf(FirstLine(input)), AfterLine(input, ROOM), o);
  }

  // ----------------------------------------------------------- the response

  /** Everything the client has been sent. */
  function Sent(t: seq<Event>): string {
    if t == [] then "" else (if t[0].Send? then t[0].data else "") + Sent(t[1..])
  }

  lemma {:induction false} SentConcat(a: seq<Event>, b: seq<Event>)
    ensures Sent(a + b) == Sent(a) + Sent(b)
    decreases |a|
  {
    if a == [] {
      assert a + b == b;
    } else {
      assert (a + b)[1..] == a[1..] + b;
      SentConcat(a[1..], b);
    }
  }

  lemma {:induction false} SentBytes(s: string)
    ensures Sent(Sends(Singletons(s))) == s
    decreases |s|
  {
    if s != "" {
      assert Sends(Singletons(s))[1..] == Sends(Singletons(s[1..]));
      SentBytes(s[1..]);
      assert [s[0]] + s[1..] == s;
    }
  }

  lemma SilentEvents(t: seq<Event>)
    requires forall k :: 0 <= k < |t| ==> !t[k].Send?
    ensures Sent(t) == ""
  {
    if t != [] { SilentEvents(t[1..]); }
  }

  lemma ParentSends(r: Request, program: string, header: string, output: string)
    ensures Sent(ParentTrace(r, program, header, output)) == output
  {
    var a := [Spawn(program, r.meth, InputFor(r, header)), ShutEnd(InR), ShutEnd(OutW),
              Feed(BodyFor(r, header))];
    var s, b := Sends(Singletons(output)), [ShutEnd(InW), ShutEnd(OutR)];
    SilentEvents(a);
    SilentEvents(b);
    SentBytes(output);
    SentConcat(a + s, b);
    SentConcat(a, s);
  }

  lemma SentAfterStatus(silent: seq<Event>, status: Event, t: seq<Event>)
    requires status.Send? && forall k :: 0 <= k < |silent| ==> !silent[k].Send?
    ensures Sent(silent + t) == Sent(t)
    ensures Sent([status] + t) == status.data + Sent(t)
  {
    SilentEvents(silent);
    SentConcat(silent, t);
    assert ([status] + t)[1..] == t;
  }

  lemma CgiSends(r: Request, program: string, header: string, o: Outcomes)
    requires LengthFor(r, header) != -1 && o.pipeInOk && o.pipeOutOk && o.forkOk
    ensures Sent(CgiTrace(r, program, header, o)) == CgiProtocol.STATUS_LINE + o.output
  {
    var p, status := ParentTrace(r, program, header, o.output), Send(CgiProtocol.STATUS_LINE);
    ParentSends(r, program, header, o.output);
    SentAfterStatus(OPEN_IN + OPEN_OUT, status, p);
    SentAfterStatus([], status, OPEN_IN + OPEN_OUT + p);
  }

  lemma HtmlSends(path: string, o: Outcomes)
    requires o.openOk && o.sendfileOk
    ensures Sent(HtmlTrace(path, o)) == CgiProtocol.STATUS_LINE + o.file
  {
    var status, file := Send(CgiProtocol.STATUS_LINE), Send(o.file);
    SilentEvents([CloseFile]);
    SentAfterStatus([], file, [CloseFile]);
    SentAfterStatus([], status, [file] + [CloseFile]);
    SentAfterStatus([OpenFile(path)], status, [status] + ([file] + [CloseFile]));
    assert HtmlTrace(path, o) == [OpenFile(path)] + ([status] + ([file] + [CloseFile]));
  }

  /** A request that is understood, whose target exists and that meets no error is answered with the
      status line and then exactly the CGI program's output or the file. */
  lemma SuccessfulResponse(r: Request, header: string, o: Outcomes)
    requires (r.IsGet() || r.IsPost()) && o.statOk && !InnerError(r, header, o)
    ensures Sent(RouteTrace(r, header, o))
            == "HTTP/1.0 200 OK\r\n\r\n"
               + if r.IsPost() || r.marked || (o.executable && !o.isDir) then o.output else o.file
  {
    var target := RequestLine.TargetOf(r.path, o.isDir);
    if UsesCgi(r, o) {
      CgiSends(r, target, header, o);
      SentConcat(CgiTrace(r, target, header, o), [CloseClient]);
    } else {
      HtmlSends(target, o);
      SentConcat(HtmlTrace(target, o), [CloseClient]);
    }
  }
}
