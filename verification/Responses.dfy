/** What clients get, from the bytes they send to the bytes and the closes they see, written out in
    full: which requests start a program, which are answered with a file, and every error page. */
module Responses {
  import opened CText
  import opened LineReader
  import opened Headers
  import RequestLine
  import opened Connection
  import opened EndToEnd

  /** A request without a body: a request line, headers and a blank line. */
  datatype Plain = Plain(line: RequestText, headers: seq<Header>, blankCrlf: bool) {
    predicate Valid() {
      line.Valid() && forall i :: 0 <= i < |headers| ==> headers[i].Valid() && headers[i].Seen()
    }

    /** A GET for a path, without a query. */
    predicate ForPath() {
      Valid() && Spells(line.meth, "GET") && '?' !in line.url
    }

    function Print(tail: string): string {
      line.Print() + (PrintHeaders(headers) + Eol(blankCrlf) + tail)
    }
  }

  const PAGE_400: seq<Event> :=
    [Send("HTTP/1.0 400 BAD REQUEST\r\n"), Send("Content-type: text/html\r\n"), Send("\r\n"),
     Send("<h>400</h><p>Bad request\U{00ef}\U{00bc}\U{0081}</p>")]
  const PAGE_404: seq<Event> :=
    [Send("HTTP/1.0 404 NOT FOUND\r\n"), Send("Content-type: text/html\r\n"), Send("\r\n"),
     Send("<h>404</h><p>Not find you request's file\U{00ef}\U{00bc}\U{0081}</p>")]
  const PAGE_500: seq<Event> :=
    [Send("HTTP/1.0 500 SERVER ERROR\r\n"), Send("Content-type: text/html\r\n"), Send("\r\n"),
     Send("<h>500</h><p>Server inner error\U{00ef}\U{00bc}\U{0081}</p>")]
  const OK_LINE: Event := Send("HTTP/1.0 200 OK\r\n\r\n")

  lemma ErrorLogs()
    ensures ErrorTrace(400) == PAGE_400 + [CloseClient]
    ensures ErrorTrace(404) == PAGE_404 + [CloseClient]
    ensures ErrorTrace(500) == PAGE_500 + [CloseClient]
  {
    PageIs(400, "HTTP/1.0 400 BAD REQUEST\r\n", "<h>400</h><p>Bad request", PAGE_400);
    PageIs(404, "HTTP/1.0 404 NOT FOUND\r\n", "<h>404</h><p>Not find you request's file", PAGE_404);
    PageIs(500, "HTTP/1.0 500 SERVER ERROR\r\n", "<h>500</h><p>Server inner error", PAGE_500);
  }

  lemma PageIs(code: int, status: string, message: string, page: seq<Event>)
    requires ErrorPage(code) == [status, "Content-type: text/html\r\n", "\r\n", message + BANG + "</p>"]
    requires |page| == 4 && page[0] == Send(status) && page[1] == Send("Content-type: text/html\r\n")
             && page[2] == Send("\r\n") && page[3].Send? && page[3].data == message + "\U{00ef}\U{00bc}\U{0081}</p>"
    ensures ErrorTrace(code) == page + [CloseClient]
  {
    assert message + BANG + "</p>" == message + "\U{00ef}\U{00bc}\U{0081}</p>";
    assert Sends(ErrorPage(code)) == page;
  }

  /** What the code does with the given bytes is this log, with this left on the socket. */
  ghost predicate Handled(input: string, o: Outcomes, log: seq<Event>, rest: string) {
    && RequestLine.UrlTerminated(FirstLine(input)) && FitsBuffers(input, o)
    && ServeTrace(input, o) == log && ServeRest(input, o) == rest
  }

  lemma PathUnderstood(g: Plain, tail: string)
    requires g.ForPath()
    ensures var input := g.Print(tail);
            && RequestOf(FirstLine(input)) == Request(g.line.meth, g.line.url, "", false)
            && RequestOf(FirstLine(input)).IsGet() && !RequestOf(FirstLine(input)).IsPost()
            && RequestLine.UrlTerminated(FirstLine(input)) && SkipHeader(AfterLine(input, ROOM)) == tail
  {
    RequestLineParsed(g.line, PrintHeaders(g.headers) + Eol(g.blankCrlf) + tail);
    RequestLine.QueryRebuilds(g.line.url);
    HeadersRoundTrip(g.headers, g.blankCrlf, tail);
    GetIsNotPost(g.line.meth);
  }

  // -------------------------------------------------------- programs and files

  /** A GET without a query for an executable file that is no directory starts it, with an empty query. */
  lemma ExecutableServed(g: Plain, tail: string, o: Outcomes)
    requires g.ForPath() && RequestLine.PathFits(g.line.url, false)
    requires o.statOk && o.executable && !o.isDir && o.pipeInOk && o.pipeOutOk && o.forkOk
    ensures Handled(g.Print(tail), o,
                    ServedLog(RequestLine.TargetOf(g.line.url, false), g.line.meth, Query(""), "", o.output), tail)
  {
    PathUnderstood(g, tail);
    RequestLine.PathFitsExact(g.line.url, false);
    RouteIsServed(RequestOf(FirstLine(g.Print(tail))), AfterLine(g.Print(tail), ROOM), o);
  }

  /** A GET without a query for a directory or a file that is not executable is answered with the file;
      no program is started. */
  lemma FileServed(g: Plain, tail: string, o: Outcomes)
    requires g.ForPath() && RequestLine.PathFits(g.line.url, o.isDir)
    requires o.statOk && (o.isDir || !o.executable) && o.openOk && o.sendfileOk
    ensures Handled(g.Print(tail), o,
                    [OpenFile(RequestLine.TargetOf(g.line.url, o.isDir)), OK_LINE, Send(o.file), CloseFile, CloseClient],
                    tail)
  {
    PathUnderstood(g, tail);
    RequestLine.PathFitsExact(g.line.url, o.isDir);
  }

  /** The same of the code. */
  method ServeExecutable(g: Plain, tail: string, o: Outcomes) returns (log: seq<Event>, rest: string)
    requires g.ForPath() && RequestLine.PathFits(g.line.url, false)
    requires o.statOk && o.executable && !o.isDir && o.pipeInOk && o.pipeOutOk && o.forkOk
    ensures log == ServedLog(RequestLine.TargetOf(g.line.url, false), g.line.meth, Query(""), "", o.output)
    ensures rest == tail
  {
    ExecutableServed(g, tail, o);
    log, rest := Accept(g.Print(tail), o);
  }

  method ServeFile(g: Plain, tail: string, o: Outcomes) returns (log: seq<Event>, rest: string)
    requires g.ForPath() && RequestLine.PathFits(g.line.url, o.isDir)
    requires o.statOk && (o.isDir || !o.executable) && o.openOk && o.sendfileOk
    ensures log == [OpenFile(RequestLine.TargetOf(g.line.url, o.isDir)), OK_LINE, Send(o.file), CloseFile, CloseClient]
    ensures rest == tail
  {
    FileServed(g, tail, o);
    log, rest := Accept(g.Print(tail), o);
  }

  // ------------------------------------------------------------------- errors

  /** Any method but GET and POST is answered with 400, and nothing behind the request line is read. */
  lemma UnknownMethod(q: RequestText, x: string, o: Outcomes)
    requires q.Valid() && !Spells(q.meth, "GET") && !Spells(q.meth, "POST")
    ensures Handled(q.Print() + x, o, PAGE_400 + [CloseClient], x)
  {
    RequestLineParsed(q, x);
    SameIgnoringCaseExact(q.meth, "GET");
    SameIgnoringCaseExact(q.meth, "POST");
    ErrorLogs();
  }

  method RefuseMethod(q: RequestText, x: string, o: Outcomes) returns (log: seq<Event>, rest: string)
    requires q.Valid() && !Spells(q.meth, "GET") && !Spells(q.meth, "POST")
    ensures log == PAGE_400 + [CloseClient] && rest == x
  {
    UnknownMethod(q, x, o);
    log, rest := Accept(q.Print() + x, o);
  }

  /** A target that does not exist is answered with 404, behind the header. */
  lemma MissingFile(g: Plain, tail: string, o: Outcomes)
    requires g.ForPath() && RequestLine.PathFits(g.line.url, false) && !o.statOk
    ensures Handled(g.Print(tail), o, PAGE_404 + [CloseClient], tail)
  {
    PathUnderstood(g, tail);
    RequestLine.PathFitsExact(g.line.url, false);
    ErrorLogs();
  }

  lemma MissingProgram(g: Get, tail: string, o: Outcomes)
    requires g.Valid() && RequestLine.PathFits(g.path, false) && !o.statOk
    ensures Handled(g.Print(tail), o, PAGE_404 + [CloseClient], tail)
  {
    GetUnderstood(g, tail);
    RequestLine.PathFitsExact(g.path, false);
    ErrorLogs();
  }

  lemma MissingPost(p: Post, tail: string, o: Outcomes)
    requires p.Valid() && RequestLine.PathFits(p.line.url, false) && !o.statOk
    ensures Handled(p.Print(tail), o, PAGE_404 + [CloseClient], p.body + tail)
  {
    PostUnderstood(p, tail);
    PostBody(p, tail);
    RequestLineParsed(p.line, p.Rest(tail));
    RequestLine.PathFitsExact(p.line.url, false);
    ErrorLogs();
  }

  method ReportMissing(g: Plain, tail: string, o: Outcomes) returns (log: seq<Event>, rest: string)
    requires g.ForPath() && RequestLine.PathFits(g.line.url, false) && !o.statOk
    ensures log == PAGE_404 + [CloseClient] && rest == tail
  {
    MissingFile(g, tail, o);
    log, rest := Accept(g.Print(tail), o);
  }

  /** A file that cannot be opened: 404, the client closed twice. */
  lemma FileNotOpened(g: Plain, tail: string, o: Outcomes)
    requires g.ForPath() && RequestLine.PathFits(g.line.url, o.isDir)
    requires o.statOk && (o.isDir || !o.executable) && !o.openOk
    ensures Handled(g.Print(tail), o, PAGE_404 + [CloseClient, CloseClient], tail)
  {
    PathUnderstood(g, tail);
    RequestLine.PathFitsExact(g.line.url, o.isDir);
    ErrorLogs();
    assert PAGE_404 + [CloseClient] + [CloseClient] == PAGE_404 + [CloseClient, CloseClient];
  }

  /** A file that cannot be sent: 500 behind the status line of success, the client closed twice. */
  lemma FileNotSent(g: Plain, tail: string, o: Outcomes)
    requires g.ForPath() && RequestLine.PathFits(g.line.url, o.isDir)
    requires o.statOk && (o.isDir || !o.executable) && o.openOk && !o.sendfileOk
    ensures Handled(g.Print(tail), o,
                    [OpenFile(RequestLine.TargetOf(g.line.url, o.isDir)), OK_LINE, CloseFile]
                    + PAGE_500 + [CloseClient, CloseClient], tail)
  {
    PathUnderstood(g, tail);
    RequestLine.PathFitsExact(g.line.url, o.isDir);
    ErrorLogs();
    var target := RequestLine.TargetOf(g.line.url, o.isDir);
    assert [OpenFile(target), OK_LINE] + ([CloseFile] + (PAGE_500 + [CloseClient])) + [CloseClient]
           == [OpenFile(target), OK_LINE, CloseFile] + PAGE_500 + [CloseClient, CloseClient];
  }

  /** A program whose pipes or process cannot be created: 500 behind the status line of success, what
      was opened is closed, the client is closed twice. */
  function FailedLog(o: Outcomes): seq<Event> {
    if !o.pipeInOk then [OK_LINE] + PAGE_500 + [CloseClient, CloseClient]
    else if !o.pipeOutOk then
      [OK_LINE, OpenEnd(InR), OpenEnd(InW)] + PAGE_500 + [CloseClient, ShutEnd(InR), ShutEnd(InW), CloseClient]
    else
      [OK_LINE, OpenEnd(InR), OpenEnd(InW), OpenEnd(OutR), OpenEnd(OutW),
       ShutEnd(InR), ShutEnd(InW), ShutEnd(OutR), ShutEnd(OutW)]
      + PAGE_500 + [CloseClient, CloseClient]
  }

  lemma ProgramNotStarted(r: Request, header: string, o: Outcomes)
    requires (r.IsGet() || r.IsPost()) && o.statOk && (r.IsPost() || r.marked || (o.executable && !o.isDir))
    requires LengthFor(r, header) != -1 && !(o.pipeInOk && o.pipeOutOk && o.forkOk)
    ensures RouteTrace(r, header, o) == FailedLog(o) && RouteRest(r, header, o) == SkipHeader(header)
  {
    ErrorLogs();
    var error := PAGE_500 + [CloseClient];
    if !o.pipeInOk {
      assert [OK_LINE] + error + [CloseClient] == [OK_LINE] + PAGE_500 + [CloseClient, CloseClient];
    } else if !o.pipeOutOk {
      assert [OK_LINE] + (OPEN_IN + (error + SHUT_IN)) + [CloseClient]
             == [OK_LINE, OpenEnd(InR), OpenEnd(InW)] + PAGE_500 + [CloseClient, ShutEnd(InR), ShutEnd(InW), CloseClient];
    } else {
      assert [OK_LINE] + (OPEN_IN + OPEN_OUT + (SHUT_IN + SHUT_OUT + error)) + [CloseClient]
             == [OK_LINE, OpenEnd(InR), OpenEnd(InW), OpenEnd(OutR), OpenEnd(OutW),
                 ShutEnd(InR), ShutEnd(InW), ShutEnd(OutR), ShutEnd(OutW)]
                + PAGE_500 + [CloseClient, CloseClient];
    }
  }

  lemma ExecutableNotStarted(g: Plain, tail: string, o: Outcomes)
    requires g.ForPath() && RequestLine.PathFits(g.line.url, false)
    requires o.statOk && o.executable && !o.isDir && !(o.pipeInOk && o.pipeOutOk && o.forkOk)
    ensures Handled(g.Print(tail), o, FailedLog(o), tail)
  {
    PathUnderstood(g, tail);
    RequestLine.PathFitsExact(g.line.url, false);
    ProgramNotStarted(RequestOf(FirstLine(g.Print(tail))), AfterLine(g.Print(tail), ROOM), o);
  }

  lemma GetNotStarted(g: Get, tail: string, o: Outcomes)
    requires g.Valid() && RequestLine.PathFits(g.path, o.isDir) && o.statOk
    requires !(o.pipeInOk && o.pipeOutOk && o.forkOk)
    ensures Handled(g.Print(tail), o, FailedLog(o), tail)
  {
    GetUnderstood(g, tail);
    RequestLine.PathFitsExact(g.path, o.isDir);
    ProgramNotStarted(RequestOf(FirstLine(g.Print(tail))), AfterLine(g.Print(tail), ROOM), o);
  }

  /** For a POST the body stays on the socket. */
  lemma PostNotStarted(p: Post, tail: string, o: Outcomes)
    requires p.Valid() && RequestLine.PathFits(p.line.url, o.isDir) && o.statOk
    requires !(o.pipeInOk && o.pipeOutOk && o.forkOk)
    ensures Handled(p.Print(tail), o, FailedLog(o), p.body + tail)
  {
    PostUnderstood(p, tail);
    PostBody(p, tail);
    RequestLineParsed(p.line, p.Rest(tail));
    RequestLine.PathFitsExact(p.line.url, o.isDir);
    ProgramNotStarted(RequestOf(FirstLine(p.Print(tail))), p.Rest(tail), o);
  }
}
