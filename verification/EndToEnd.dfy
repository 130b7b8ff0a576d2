/** Whole requests: from the bytes a client sends, through the header loops, the relay and the pipe
    protocol, to what the CGI program decodes. */
module EndToEnd {
  import opened CText
  import opened LineReader
  import opened Headers
  import opened Relay
  import RequestLine
  import Connection
  import CgiProtocol
  import DescriptorNumbers
  import opened Forms
  import opened GoodsQuery
  import MathAdd

  /** A request line as a client prints it; `rest` is what follows the URL, such as the version. */
  datatype RequestText = RequestText(meth: string, spaces: string, url: string, rest: string, crlf: bool) {
    predicate Valid() {
      && meth != "" && RequestLine.NoSpace(meth) && |meth| <= 101
      && spaces != "" && RequestLine.AllSpace(spaces)
      && url != "" && RequestLine.NoSpace(url)
      && (rest == "" || Blank(rest[0]))
      && '\r' !in Text() && '\n' !in Text() && '\0' !in Text() && |Text()| <= 1022
    }

    function Text(): string {
      meth + spaces + url + rest
    }

    function Print(): string {
      Text() + Eol(crlf)
    }
  }

  lemma NoNulInParts(a: string, b: string)
    requires NUL !in a + b
    ensures NUL !in a && NUL !in b
  {
    assert forall c :: c in a ==> c in a + b;
    assert forall c :: c in b ==> c in a + b;
  }

  lemma CStrWhole(s: string)
    requires NUL !in s
    ensures CStr(s) == s
  {
    IndexIs(s, NUL, |s|);
  }

  /** A printed request line, followed by anything, is read back as the method and URL it was printed
      from, the URL of a GET being split at its first question mark. */
  lemma RequestLineParsed(q: RequestText, x: string)
    requires q.Valid()
    ensures var input := q.Print() + x;
            && AfterLine(input, ROOM) == x
            && RequestLine.UrlTerminated(Connection.FirstLine(input))
            && Connection.RequestOf(Connection.FirstLine(input))
               == if Spells(q.meth, "GET")
                  then Connection.Request(q.meth, RequestLine.PathOf(q.url), RequestLine.QueryOf(q.url), '?' in q.url)
                  else Connection.Request(q.meth, q.url, q.url, false)
  {
    var input := q.Print() + x;
    SameIgnoringCaseExact(q.meth, "GET");
    LineOfText(q.Text(), Eol(q.crlf), x, ROOM);
    var line := Connection.FirstLine(input);
    var tail := q.rest + "\n" + Repeat(NUL, BUFFER_SIZE - |q.Text() + "\n"|);
    assert line == q.meth + q.spaces + q.url + tail;
    assert tail != "" && IsSpace(tail[0]);
    RequestLine.RequestLineRoundTrip(q.meth, q.spaces, q.url, tail);
    NoNulInParts(q.meth + q.spaces + q.url, q.rest);
    NoNulInParts(q.meth + q.spaces, q.url);
    NoNulInParts(q.meth, q.spaces);
    CStrWhole(q.meth);
    CStrWhole(q.url);
  }

  /** A POST request with a `Content-Length` header in any letter case; later headers do not repeat
      it, and no line end falls right behind a full buffer. */
  datatype Post = Post(line: RequestText, before: seq<Header>, name: string, crlf: bool, others: seq<Header>,
                       blankCrlf: bool, body: string)
  {
    function LengthHeader(): Header {
      Header(name + ":" + (" " + Dec(|body|)), crlf)
    }

    function AllHeaders(): seq<Header> {
      before + [LengthHeader()] + others
    }

    predicate Valid() {
      && line.Valid() && Spells(line.meth, "POST")
      && IsName(name) && |body| < TWO31
      && (forall i :: 0 <= i < |before| ==> before[i].Valid() && before[i].Seen())
      && (forall i :: 0 <= i < |others| ==> others[i].Valid() && others[i].Seen() && Silent(others[i]))
    }

    /** Everything behind the request line. */
    function Rest(tail: string): string {
      PrintHeaders(AllHeaders()) + Eol(blankCrlf) + (body + tail)
    }

    function Print(tail: string): string {
      line.Print() + Rest(tail)
    }
  }

  lemma LengthHeaderIsShort(p: Post)
    requires p.Valid()
    ensures |p.LengthHeader().text| < ROOM
    ensures forall i :: 0 <= i < |p.AllHeaders()| ==> p.AllHeaders()[i].Valid() && p.AllHeaders()[i].Seen()
  {
    var h := p.LengthHeader();
    assert Pow10(10) == 10 * (10 * (10 * (10 * (10 * Pow10(5)))));
    assert Pow10(5) == 100000;
    DecLength(|p.body|, 10);
    assert h.Valid() && h.Seen();
    assert forall i :: 0 <= i < |p.AllHeaders()| ==>
             p.AllHeaders()[i] == if i < |p.before| then p.before[i]
                                  else if i == |p.before| then h else p.others[i - |p.before| - 1];
  }

  /** The length is read from the header, the header loop stops in front of the body, and the relay
      hands on exactly the body, byte for byte, leaving the socket right behind it. */
  lemma PostBody(p: Post, tail: string)
    requires p.Valid()
    ensures PostLength(p.Rest(tail), 0) == |p.body|
    ensures SkipHeader(p.Rest(tail)) == p.body + tail
    ensures RelayBytes(p.body + tail, |p.body|) == p.body && AfterRelay(p.body + tail, |p.body|) == tail
  {
    var h := p.LengthHeader();
    LengthHeaderIsShort(p);
    HeadersRoundTrip(p.AllHeaders(), p.blankCrlf, p.body + tail);
    LengthRoundTrip(p.AllHeaders(), p.blankCrlf, p.body + tail, 0);
    assert h.text + "\n" == p.name + ":" + (" " + Dec(|p.body|) + "\n");
    FieldNamesLength(p.name, " " + Dec(|p.body|) + "\n");
    LastLengthWins(p.before, h, p.others, 0);
    ReadDecimal(|p.body|);
    SpacedLength(p.name, " ", Dec(|p.body|));
    FullBody(p.body, tail);
  }

  lemma PostIsNotGet(meth: string)
    requires Spells(meth, "POST")
    ensures SameIgnoringCase(meth, "POST") && !SameIgnoringCase(meth, "GET") && !Spells(meth, "GET")
  {
    SameIgnoringCaseExact(meth, "POST");
  }

  lemma GetIsNotPost(meth: string)
    requires Spells(meth, "GET")
    ensures SameIgnoringCase(meth, "GET") && !SameIgnoringCase(meth, "POST") && !Spells(meth, "POST")
  {
    SameIgnoringCaseExact(meth, "GET");
  }

  /** What the server understands of a printed POST: its target, its length and its body. */
  lemma PostUnderstood(p: Post, tail: string)
    requires p.Valid()
    ensures var input := p.Print(tail);
            var r, header := Connection.RequestOf(Connection.FirstLine(input)), AfterLine(input, ROOM);
            && r.IsPost() && !r.IsGet() && r.path == p.line.url
            && Connection.InputFor(r, header) == Connection.Length(|p.body|)
            && Connection.BodyFor(r, header) == p.body
            && header == p.Rest(tail)
  {
    RequestLineParsed(p.line, p.Rest(tail));
    PostBody(p, tail);
    PostIsNotGet(p.line.meth);
  }

  /** The log of a program served without a failing call: status line, both pipes, the program and its
      input, its output byte by byte, and the closing. */
  function ServedLog(program: string, meth: string, input: Connection.CgiInput, body: string, output: string): seq<Connection.Event> {
    [Connection.Send("HTTP/1.0 200 OK\r\n\r\n")]
    + [Connection.OpenEnd(Connection.InR), Connection.OpenEnd(Connection.InW),
       Connection.OpenEnd(Connection.OutR), Connection.OpenEnd(Connection.OutW)]
    + [Connection.Spawn(program, meth, input), Connection.ShutEnd(Connection.InR), Connection.ShutEnd(Connection.OutW),
       Connection.Feed(body)]
    + Connection.Sends(Connection.Singletons(output))
    + [Connection.ShutEnd(Connection.InW), Connection.ShutEnd(Connection.OutR), Connection.CloseClient]
  }

  lemma RouteIsServed(r: Connection.Request, header: string, o: Connection.Outcomes)
    requires (r.IsGet() || r.IsPost()) && o.statOk && Connection.UsesCgi(r, o)
    requires Connection.LengthFor(r, header) != -1 && o.pipeInOk && o.pipeOutOk && o.forkOk
    ensures Connection.RouteTrace(r, header, o)
            == ServedLog(RequestLine.TargetOf(r.path, o.isDir), r.meth, Connection.InputFor(r, header),
                         Connection.BodyFor(r, header), o.output)
  {
  }

  /** A printed POST whose path fits its buffer stays inside all buffers; its program is started with
      the body's length and fed exactly the body, its output goes to the client, and the socket is left
      behind the body, when no call fails. */
  lemma PostServed(p: Post, tail: string, o: Connection.Outcomes)
    requires p.Valid() && o.statOk && o.pipeInOk && o.pipeOutOk && o.forkOk
    requires RequestLine.PathFits(p.line.url, o.isDir)
    ensures var input := p.Print(tail);
            && RequestLine.UrlTerminated(Connection.FirstLine(input)) && Connection.FitsBuffers(input, o)
            && Connection.ServeTrace(input, o)
               == ServedLog(RequestLine.TargetOf(p.line.url, o.isDir), p.line.meth, Connection.Length(|p.body|), p.body, o.output)
            && Connection.ServeRest(input, o) == tail
            && Connection.Sent(Connection.ServeTrace(input, o)) == "HTTP/1.0 200 OK\r\n\r\n" + o.output
  {
    var input := p.Print(tail);
    PostUnderstood(p, tail);
    PostBody(p, tail);
    RequestLineParsed(p.line, p.Rest(tail));
    var r, header := Connection.RequestOf(Connection.FirstLine(input)), AfterLine(input, ROOM);
    RequestLine.PathFitsExact(r.path, o.isDir);
    Connection.SuccessfulResponse(r, header, o);
    RouteIsServed(r, header, o);
  }

  /** The same of the code, from the bytes on the socket. */
  method ServePost(p: Post, tail: string, o: Connection.Outcomes) returns (log: seq<Connection.Event>, rest: string)
    requires p.Valid() && o.statOk && o.pipeInOk && o.pipeOutOk && o.forkOk
    requires RequestLine.PathFits(p.line.url, o.isDir)
    ensures log == ServedLog(RequestLine.TargetOf(p.line.url, o.isDir), p.line.meth, Connection.Length(|p.body|), p.body, o.output)
    ensures rest == tail
    ensures Connection.Sent(log) == "HTTP/1.0 200 OK\r\n\r\n" + o.output
  {
    PostServed(p, tail, o);
    log, rest := Accept(p.Print(tail), o);
  }

  /** One connection that delivers the given bytes. */
  method Accept(input: string, o: Connection.Outcomes) returns (log: seq<Connection.Event>, rest: string)
    requires RequestLine.UrlTerminated(Connection.FirstLine(input)) && Connection.FitsBuffers(input, o)
    ensures log == Connection.ServeTrace(input, o) && rest == Connection.ServeRest(input, o)
    ensures Connection.DisciplinedConnection(log, input, o)
  {
    var sock := new Socket(input);
    var session := new Connection.Session(sock);
    session.AcceptRequest(o);
    Connection.ConnectionDiscipline(input, o);
    log, rest := session.log, sock.input;
  }

  /** A GET request with a query. */
  datatype Get = Get(line: RequestText, path: string, query: string, headers: seq<Header>, blankCrlf: bool) {
    predicate Valid() {
      && line.Valid() && Spells(line.meth, "GET")
      && line.url == path + "?" + query && '?' !in path
      && forall i :: 0 <= i < |headers| ==> headers[i].Valid() && headers[i].Seen()
    }

    function Print(tail: string): string {
      line.Print() + (PrintHeaders(headers) + Eol(blankCrlf) + tail)
    }
  }

  /** What the server understands of a printed GET. */
  lemma GetUnderstood(g: Get, tail: string)
    requires g.Valid()
    ensures var input := g.Print(tail);
            var r, header := Connection.RequestOf(Connection.FirstLine(input)), AfterLine(input, ROOM);
            && r == Connection.Request(g.line.meth, g.path, g.query, true) && r.IsGet() && !r.IsPost()
            && RequestLine.UrlTerminated(Connection.FirstLine(input))
            && SkipHeader(header) == tail
  {
    var header := PrintHeaders(g.headers) + Eol(g.blankCrlf) + tail;
    RequestLineParsed(g.line, header);
    RequestLine.QueryUnique(g.path, g.query);
    HeadersRoundTrip(g.headers, g.blankCrlf, tail);
    assert '?' in g.line.url by { assert g.line.url[|g.path|] == '?'; }
    GetIsNotPost(g.line.meth);
  }

  /** The buffers take a GET whose program is started if and only if its path fits and its query has at
      most 1010 bytes. */
  lemma GetFits(g: Get, tail: string, o: Connection.Outcomes)
    requires g.Valid() && o.statOk && o.pipeInOk && o.pipeOutOk && o.forkOk
    ensures Connection.FitsBuffers(g.Print(tail), o) <==> RequestLine.PathFits(g.path, o.isDir) && |g.query| <= 1010
  {
    GetUnderstood(g, tail);
    RequestLine.PathFitsExact(g.path, o.isDir);
    assert |"QUERY_STRING=" + g.query| == 13 + |g.query|;
  }

  /** A GET with a query runs its program with exactly that query. */
  lemma GetServed(g: Get, tail: string, o: Connection.Outcomes)
    requires g.Valid() && o.statOk && o.pipeInOk && o.pipeOutOk && o.forkOk
    requires RequestLine.PathFits(g.path, o.isDir) && |g.query| <= 1010
    ensures var input := g.Print(tail);
            && RequestLine.UrlTerminated(Connection.FirstLine(input)) && Connection.FitsBuffers(input, o)
            && Connection.ServeTrace(input, o)
               == ServedLog(RequestLine.TargetOf(g.path, o.isDir), g.line.meth, Connection.Query(g.query), "", o.output)
            && Connection.ServeRest(input, o) == tail
            && Connection.Sent(Connection.ServeTrace(input, o)) == "HTTP/1.0 200 OK\r\n\r\n" + o.output
  {
    var input := g.Print(tail);
    GetUnderstood(g, tail);
    GetFits(g, tail, o);
    var r, header := Connection.RequestOf(Connection.FirstLine(input)), AfterLine(input, ROOM);
    Connection.SuccessfulResponse(r, header, o);
    RouteIsServed(r, header, o);
  }

  /** The same of the code. */
  method ServeGet(g: Get, tail: string, o: Connection.Outcomes) returns (log: seq<Connection.Event>, rest: string)
    requires g.Valid() && o.statOk && o.pipeInOk && o.pipeOutOk && o.forkOk
    requires RequestLine.PathFits(g.path, o.isDir) && |g.query| <= 1010
    ensures log == ServedLog(RequestLine.TargetOf(g.path, o.isDir), g.line.meth, Connection.Query(g.query), "", o.output)
    ensures rest == tail
    ensures Connection.Sent(log) == "HTTP/1.0 200 OK\r\n\r\n" + o.output
  {
    GetServed(g, tail, o);
    log, rest := Accept(g.Print(tail), o);
  }

  /** A POST with `Content-Length: -1` has its client closed twice, without any failing call. */
  method CloseTwice(o: Connection.Outcomes) returns (log: seq<Connection.Event>)
    requires o.statOk
    ensures Connection.Count(log, Connection.CloseClient) == 2
  {
    NegativeLength(o);
    var rest;
    log, rest := Accept(NEGATIVE_LENGTH, o);
  }

  const NEGATIVE_LENGTH := "POST /\r\n" + ("Content-Length: -1" + "\r\n" + "\r\n" + "")

  /** A request that the code can take and that ends in an inner error. */
  ghost predicate Errs(input: string, o: Connection.Outcomes) {
    var line, header := Connection.FirstLine(input), AfterLine(input, ROOM);
    && RequestLine.UrlTerminated(line) && Connection.FitsBuffers(input, o)
    && Connection.InnerError(Connection.RequestOf(line), header, o)
  }

  lemma NegativeLength(o: Connection.Outcomes)
    requires o.statOk
    ensures Errs(NEGATIVE_LENGTH, o)
  {
    var q, h := RequestText("POST", " ", "/", "", true), Header("Content-Length: -1", true);
    MinusOne(h);
    PrintedRequest(q, h);
    LengthError(q, h, o);
  }

  lemma PrintedRequest(q: RequestText, h: Header)
    requires q == RequestText("POST", " ", "/", "", true) && h == Header("Content-Length: -1", true)
    ensures q.Valid() && q.Print() + (PrintHeaders([h]) + Eol(true) + "") == NEGATIVE_LENGTH
  {
    OneHeader(h);
    PrintedRequestLine(q);
  }

  lemma OneHeader(h: Header)
    ensures PrintHeaders([h]) == h.text + Eol(h.crlf)
  {
    assert [h][1..] == [];
    assert PrintHeaders([]) == "";
  }

  lemma PrintedRequestLine(q: RequestText)
    requires q == RequestText("POST", " ", "/", "", true)
    ensures q.Valid() && q.Print() == "POST /\r\n"
  {
    assert q.Text() == "POST /";
  }

  lemma LengthError(q: RequestText, h: Header, o: Connection.Outcomes)
    requires q.Valid() && q.meth == "POST" && q.url == "/" && o.statOk
    requires h.Valid() && h.Seen() && AnnouncedLength([h], 0) == -1
    ensures Errs(q.Print() + (PrintHeaders([h]) + Eol(true) + ""), o)
  {
    RequestLineParsed(q, PrintHeaders([h]) + Eol(true) + "");
    PostIsNotGet(q.meth);
    RequestLine.PathFitsExact("/", o.isDir);
    LengthRoundTrip([h], true, "", 0);
  }

  lemma MinusOne(h: Header)
    requires h.text == "Content-Length: -1"
    ensures AnnouncedLength([h], 0) == -1
  {
    var line := h.text + "\n";
    assert line[..14] == CONTENT_LENGTH;
    assert [h][1..] == [];
    var lines: seq<string> := [line];
    assert lines[1..] == [];
    assert UpdateAll(lines, 0) == UpdateAll([], LengthAt16(line)) == LengthAt16(line);
    AtoiPrintInt(-1, "\n");
    assert PrintInt(-1) == "-1";
    assert line[16..] == PrintInt(-1) + "\n";
  }

  // ------------------------------------------------- through the pipe protocol

  /** The exchange that `exe_cgi` sets up for a POST. */
  ghost predicate JobOf(job: CgiProtocol.Job, p: Post, tail: string) {
    && job.sock == SkipHeader(p.Rest(tail)) && job.length == Rounds(PostLength(p.Rest(tail), 0))
    && (job.refused <==> PostLength(p.Rest(tail), 0) == -1)
  }

  /** Any number of POSTs served at once, each fitting its pipes, with no failing call: in every
      maximal run, descriptors being numbers of one table, every CGI program reads exactly the body its
      client posted, and every client gets the status line and exactly its program's output. */
  lemma {:induction false} PostsReachTheirPrograms(ps: seq<Post>, tails: seq<string>, jobs: seq<CgiProtocol.Job>,
                                moves: seq<CgiProtocol.Move>)
    requires |ps| == |tails| == |jobs|
    requires forall i :: 0 <= i < |ps| ==> ps[i].Valid() && JobOf(jobs[i], ps[i], tails[i])
    requires forall i :: 0 <= i < |jobs| ==> jobs[i].Valid() && jobs[i].Fits()
    requires forall k :: 0 <= k < |moves| && moves[k].WorkerMove? ==> moves[k].ok
    requires DescriptorNumbers.Run(jobs, moves).Some?
    requires DescriptorNumbers.Maximal(jobs, DescriptorNumbers.Run(jobs, moves).value)
    ensures var s := DescriptorNumbers.Run(jobs, moves).value.sys;
            forall i :: 0 <= i < |ps| ==>
              && s.xs[i].got == ps[i].body
              && s.xs[i].client == "HTTP/1.0 200 OK\r\n\r\n" + (jobs[i].prefix + jobs[i].respond(ps[i].body))
  {
    forall i | 0 <= i < |ps| ensures jobs[i].Body() == ps[i].body && !jobs[i].refused {
      PostBody(ps[i], tails[i]);
    }
    DescriptorNumbers.EveryoneIsServedByNumber(jobs, moves);
  }

  // ------------------------------------------------------- the CGI programs

  const POST_DATA_SIZE: nat := 1024

  /** The read loop of every program: the posted form as a C string. */
  method ReadForm(pipe: Socket, contentLength: int) returns (postData: array<char>)
    requires 0 <= contentLength < POST_DATA_SIZE && |pipe.input| >= contentLength
    requires NUL !in pipe.input[..contentLength]
    modifies pipe
    ensures fresh(postData) && postData.Length == POST_DATA_SIZE
    ensures NUL in postData[..] && CStr(postData[..]) == old(pipe.input)[..contentLength]
  {
    postData := new char[POST_DATA_SIZE](_ => NUL);
    ghost var form := pipe.input[..contentLength];
    ReadPostData(pipe, postData, contentLength);
    assert postData[..] == form + postData[contentLength..];
    CStrOfPrefix(form, postData[contentLength..]);
    assert postData[contentLength] == NUL;
  }

  /** `main` of `add_god_cgi` for a POST, up to the statement. */
  method AddGoodsProgram(pipe: Socket, contentLength: int) returns (sql: string)
    requires 0 <= contentLength < POST_DATA_SIZE && |pipe.input| >= contentLength
    requires var form := pipe.input[..contentLength]; NUL !in form && Scannable(form, 4)
    modifies pipe
    ensures var v := ScanValues(Spaced(old(pipe.input)[..contentLength]), 4);
            |v| == 4 && Inserts(sql, Goods(v[0], v[1], v[2], v[3]))
  {
    var postData := ReadForm(pipe, contentLength);
    sql := AddGoods(postData);
  }

  /** `main` of `change_god_cgi` for a POST, up to the statement. */
  method ChangeGoodsProgram(pipe: Socket, contentLength: int) returns (sql: string)
    requires 0 <= contentLength < POST_DATA_SIZE && |pipe.input| >= contentLength
    requires var form := pipe.input[..contentLength]; NUL !in form && Scannable(form, 5)
    modifies pipe
    ensures var v := ScanValues(Spaced(old(pipe.input)[..contentLength]), 5);
            |v| == 5 && Changes(sql, v[0], Goods(v[1], v[2], v[3], v[4]))
  {
    var postData := ReadForm(pipe, contentLength);
    sql := ChangeGoods(postData);
  }

  /** `main` of `god_list_cgi` for a POST, up to the query. */
  method SearchProgram(pipe: Socket, contentLength: int) returns (sql: string)
    requires 0 <= contentLength && |pipe.input| >= contentLength
    requires var form := pipe.input[..contentLength];
             && NUL !in form && |WithSize(form)| < POST_DATA_SIZE
             && forall v :: v in ScanValues(Spaced(WithSize(form)), 6) ==> |v| < FIELD_SIZE
    modifies pipe
    ensures Answers(sql, FiltersOf(WithSize(old(pipe.input)[..contentLength])))
  {
    var postData := ReadForm(pipe, contentLength);
    EnsureSize(postData);
    sql := GetSelectSql(postData);
  }

  /** `main` of `math_cgi` for a POST, up to the sum. */
  method MathProgram(pipe: Socket, contentLength: int) returns (sum: int)
    requires 0 <= contentLength < POST_DATA_SIZE && |pipe.input| >= contentLength
    requires var form := pipe.input[..contentLength];
             NUL !in form && MathAdd.SecondEq(form) < |form| && MathAdd.Addable(form)
    modifies pipe
    ensures sum == MathAdd.IntSum(old(pipe.input)[..contentLength])
  {
    var postData := ReadForm(pipe, contentLength);
    sum := MathAdd.AddForm(postData);
  }

  /** A goods form posted by a client: the program's four values are the row's, and its statement says
      so unambiguously exactly when the row allows it. */
  lemma PostedRowIsInserted(p: Post, tail: string, keys: seq<string>, g: Goods)
    requires p.Valid() && |keys| == 4 && forall k :: 0 <= k < 4 ==> Clean(keys[k])
    requires CleanGoods(g) && p.body == PrintForm(Fill(keys, [g.name, g.typ, g.price, g.size]))
    ensures var input := p.Print(tail);
            var r, header := Connection.RequestOf(Connection.FirstLine(input)), AfterLine(input, ROOM);
            var form := Connection.BodyFor(r, header);
            var v := ScanValues(Spaced(form), 4);
            && NUL !in form && Scannable(form, 4)
            && v == [g.name, g.typ, g.price, g.size]
            && Inserts(InsertText(Goods(v[0], v[1], v[2], v[3])), g)
  {
    PostUnderstood(p, tail);
    FilledForm(keys, [g.name, g.typ, g.price, g.size]);
    InsertsBecause(g);
  }

  /** The same for changing a row: the first field selects it, the others are its new contents, and the
      statement can be read in no other way. */
  lemma PostedRowIsChanged(p: Post, tail: string, keys: seq<string>, id: string, g: Goods)
    requires p.Valid() && |keys| == 5 && forall k :: 0 <= k < 5 ==> Clean(keys[k])
    requires CleanField(id) && CleanGoods(g)
    requires p.body == PrintForm(Fill(keys, [id, g.name, g.typ, g.price, g.size]))
    ensures var input := p.Print(tail);
            var r, header := Connection.RequestOf(Connection.FirstLine(input)), AfterLine(input, ROOM);
            var form := Connection.BodyFor(r, header);
            var v := ScanValues(Spaced(form), 5);
            && NUL !in form && Scannable(form, 5)
            && v == [id, g.name, g.typ, g.price, g.size]
            && Changes(UpdateText(v[0], Goods(v[1], v[2], v[3], v[4])), id, g)
  {
    PostUnderstood(p, tail);
    FilledForm(keys, [id, g.name, g.typ, g.price, g.size]);
    ChangesBecause(UpdateText(id, g), id, g);
  }

  /** Two numbers posted by a client arrive with their sum, which the program can add if it is an `int`. */
  lemma PostedNumbersAreAdded(p: Post, tail: string, key1: string, a: int, key2: string, b: int)
    requires p.Valid() && Clean(key1) && Clean(key2)
    requires -TWO31 <= a < TWO31 && -TWO31 <= b < TWO31
    requires p.body == PrintForm([Pair(key1, PrintInt(a)), Pair(key2, PrintInt(b))])
    ensures var input := p.Print(tail);
            var r, header := Connection.RequestOf(Connection.FirstLine(input)), AfterLine(input, ROOM);
            var form := Connection.BodyFor(r, header);
            && NUL !in form && MathAdd.SecondEq(form) < |form| && MathAdd.IntSum(form) == a + b
            && (MathAdd.Addable(form) <==> -TWO31 <= a + b < TWO31)
  {
    PostUnderstood(p, tail);
    MathAdd.AddRoundTrip(key1, a, key2, b);
  }

  // ------------------------------------------------ from the client to the statement

  /** What the server has put on the input pipe of its program. */
  function Fed(log: seq<Connection.Event>): string {
    if log == [] then "" else (if log[0].Feed? then log[0].data else "") + Fed(log[1..])
  }

  lemma {:induction false} FedConcat(a: seq<Connection.Event>, b: seq<Connection.Event>)
    ensures Fed(a + b) == Fed(a) + Fed(b)
    decreases |a|
  {
    if a == [] {
      assert a + b == b;
    } else {
      assert (a + b)[1..] == a[1..] + b;
      FedConcat(a[1..], b);
    }
  }

  lemma {:induction false} FedNothing(log: seq<Connection.Event>)
    requires forall k :: 0 <= k < |log| ==> !log[k].Feed?
    ensures Fed(log) == ""
    decreases |log|
  {
    if log != [] { FedNothing(log[1..]); }
  }

  lemma FedOnce(a: seq<Connection.Event>, body: string, b: seq<Connection.Event>)
    requires forall k :: 0 <= k < |a| ==> !a[k].Feed?
    requires forall k :: 0 <= k < |b| ==> !b[k].Feed?
    ensures Fed(a + ([Connection.Feed(body)] + b)) == body
  {
    FedNothing(a);
    FedNothing(b);
    FedConcat(a, [Connection.Feed(body)] + b);
    assert ([Connection.Feed(body)] + b)[1..] == b;
    assert "" + (body + "") == body;
  }

  lemma ServedLogFeeds(program: string, meth: string, input: Connection.CgiInput, body: string, output: string)
    ensures Fed(ServedLog(program, meth, input, body, output)) == body
  {
    var log := ServedLog(program, meth, input, body, output);
    var k := 8;
    assert log[k] == Connection.Feed(body);
    forall j | k < j < |log| ensures !log[j].Feed? {
      if j <= k + |output| {
        assert log[j] == Connection.Sends(Connection.Singletons(output))[j - k - 1];
      }
    }
    FedOnce(log[..k], body, log[k + 1..]);
    assert log == log[..k] + ([log[k]] + log[k + 1..]);
  }

  /** A POST that is served without a failing call, with a body that fits a program's buffer together with
      its NUL. */
  predicate Servable(p: Post, o: Connection.Outcomes) {
    && p.Valid() && RequestLine.PathFits(p.line.url, o.isDir) && |p.body| <= 1023
    && o.statOk && o.pipeInOk && o.pipeOutOk && o.forkOk
  }

  /** The server handles the request, and its program finds on its input what the server fed it. */
  method ServeProgram(p: Post, tail: string, o: Connection.Outcomes) returns (pipe: Socket)
    requires Servable(p, o)
    ensures fresh(pipe) && pipe.input == p.body
  {
    var log, rest := ServePost(p, tail, o);
    ServedLogFeeds(RequestLine.TargetOf(p.line.url, o.isDir), p.line.meth, Connection.Length(|p.body|), p.body, o.output);
    pipe := new Socket(Fed(log));
  }

  lemma WholeBody(p: Post, tail: string)
    requires p.Valid()
    ensures var input := p.Print(tail);
            Connection.BodyFor(Connection.RequestOf(Connection.FirstLine(input)), AfterLine(input, ROOM)) == p.body
    ensures p.body[..|p.body|] == p.body
  {
    PostUnderstood(p, tail);
  }

  /** A row a client posts is the row of the statement that is executed. */
  method InsertPosted(p: Post, tail: string, keys: seq<string>, g: Goods, o: Connection.Outcomes) returns (sql: string)
    requires Servable(p, o) && |keys| == 4 && forall k :: 0 <= k < 4 ==> Clean(keys[k])
    requires CleanGoods(g) && p.body == PrintForm(Fill(keys, [g.name, g.typ, g.price, g.size]))
    ensures Inserts(sql, g)
  {
    PostedRowIsInserted(p, tail, keys, g);
    WholeBody(p, tail);
    var pipe := ServeProgram(p, tail, o);
    sql := AddGoodsProgram(pipe, |p.body|);
  }

  method ChangePosted(p: Post, tail: string, keys: seq<string>, id: string, g: Goods, o: Connection.Outcomes)
    returns (sql: string)
    requires Servable(p, o) && |keys| == 5 && forall k :: 0 <= k < 5 ==> Clean(keys[k])
    requires CleanField(id) && CleanGoods(g)
    requires p.body == PrintForm(Fill(keys, [id, g.name, g.typ, g.price, g.size]))
    ensures Changes(sql, id, g)
  {
    PostedRowIsChanged(p, tail, keys, id, g);
    WholeBody(p, tail);
    var pipe := ServeProgram(p, tail, o);
    sql := ChangeGoodsProgram(pipe, |p.body|);
  }

  /** Two numbers a client posts are added, when their sum is an `int`. */
  method AddPosted(p: Post, tail: string, key1: string, a: int, key2: string, b: int, o: Connection.Outcomes)
    returns (sum: int)
    requires Servable(p, o) && Clean(key1) && Clean(key2)
    requires -TWO31 <= a < TWO31 && -TWO31 <= b < TWO31 && -TWO31 <= a + b < TWO31
    requires p.body == PrintForm([Pair(key1, PrintInt(a)), Pair(key2, PrintInt(b))])
    ensures sum == a + b
  {
    PostedNumbersAreAdded(p, tail, key1, a, key2, b);
    WholeBody(p, tail);
    var pipe := ServeProgram(p, tail, o);
    sum := MathProgram(pipe, |p.body|);
  }

  /** A search form a client posts in full is answered with a query for the rows that pass its filters. */
  method SearchPosted(p: Post, tail: string, keys: seq<string>, f: Filters, o: Connection.Outcomes) returns (sql: string)
    requires Servable(p, o) && |keys| == 6 && forall k :: 0 <= k < 6 ==> Clean(keys[k])
    requires CleanField(f.id) && CleanField(f.name) && CleanField(f.typ)
             && CleanField(f.low) && CleanField(f.high) && CleanField(f.size)
    requires p.body == PrintForm(Fill(keys, [f.id, f.name, f.typ, f.low, f.high, f.size]))
    requires |WithSize(p.body)| < POST_DATA_SIZE
    ensures Answers(sql, f)
  {
    var values := [f.id, f.name, f.typ, f.low, f.high, f.size];
    FilledForm(keys, values);
    FullSearchFormWithSize(keys, f);
    WholeBody(p, tail);
    var pipe := ServeProgram(p, tail, o);
    sql := SearchProgram(pipe, |p.body|);
  }
}
