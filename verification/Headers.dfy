/** The two loops that read a request's header lines: `clear_header`, which discards them, and the
    loop of `exe_cgi` that looks for the length of a POST body. */
module Headers {
  import opened CText
  import opened LineReader
  import opened Multiples

  const BUFFER_SIZE: nat := 1024
  /** The most one call can deliver into such a buffer. */
  const ROOM: nat := 1023

  /** `strcmp(buf, "\n") == 0`. */
  predicate IsBlankLine(buf: string) {
    |buf| >= 2 && buf[0] == '\n' && buf[1] == NUL
  }

  /** The loops stop at the call that yields nothing or a lone LF. */
  predicate EndsHeader(line: string) {
    line == "" || line == "\n"
  }

  /** What is left on the socket when a header loop stops. */
  function SkipHeader(s: string): string
    decreases |s|
  {
    LineSplitsNorm(s, ROOM);
    if EndsHeader(Line(s, ROOM)) then AfterLine(s, ROOM) else SkipHeader(AfterLine(s, ROOM))
  }

  /** The buffer after a call of `get_line` on a zeroed buffer. */
  ghost predicate HoldsLine(buf: string, line: string) {
    && |line| < |buf| == BUFFER_SIZE
    && buf[..|line|] == line
    && forall k :: |line| <= k < |buf| ==> buf[k] == NUL
  }

  lemma BlankLineTest(buf: string, s: string)
    requires var line := Line(s, ROOM); |line| < |buf| && buf[..|line|] == line && buf[|line|] == NUL
    ensures |Line(s, ROOM)| > 0 && !IsBlankLine(buf) <==> !EndsHeader(Line(s, ROOM))
  {
    var line := Line(s, ROOM);
    LineIsMaximalPiece(s, ROOM);
    if line != "" { assert buf[0] == line[0]; }
    if |line| >= 2 { assert buf[1] == line[1]; }
  }

  /** `clear_header`. */
  method ClearHeader(client: Socket)
    modifies client
    ensures client.input == SkipHeader(old(client.input))
  {
    var buf := new char[BUFFER_SIZE](_ => NUL);
    ghost var whole := client.input;
    while true
      invariant SkipHeader(whole) == SkipHeader(client.input)
      decreases |client.input|
    {
      ghost var before := client.input;
      LineSplitsNorm(before, ROOM);
      var ret := GetLine(client, buf, BUFFER_SIZE);
      BlankLineTest(buf[..], before);
      if !(ret > 0 && !IsBlankLine(buf[..])) {
        break;
      }
    }
  }

  const CONTENT_LENGTH := "Content-Length"

  /** `strncasecmp(buf, "Content-Length:", strlen("Content-Length")) == 0`: the colon is not compared. */
  predicate NamesContentLength(buf: string) {
    |buf| >= 14 && SameIgnoringCase(buf[..14], CONTENT_LENGTH)
  }

  /** `atoi(&buf[16])`. */
  function LengthAt16(buf: string): int {
    Atoi(if |buf| >= 16 then buf[16..] else "")
  }

  /** `content_length` after a header line. */
  function UpdateLength(line: string, acc: int): int {
    if NamesContentLength(line) then LengthAt16(line) else acc
  }

  /** `content_length` when the POST header loop stops. */
  function PostLength(s: string, acc: int): int
    decreases |s|
  {
    LineSplitsNorm(s, ROOM);
    var line := Line(s, ROOM);
    var acc' := UpdateLength(line, acc);
    if EndsHeader(line) then acc' else PostLength(AfterLine(s, ROOM), acc')
  }

  lemma LineInBuffer(buf: string, line: string, acc: int)
    requires HoldsLine(buf, line)
    ensures UpdateLength(buf, acc) == UpdateLength(line, acc)
  {
    if |line| < 14 {
      assert buf[..14][|line|] == NUL;
      assert Lower(NUL) != Lower(CONTENT_LENGTH[|line|]);
    } else {
      assert buf[..14] == line[..14];
    }
    if |line| >= 16 {
      assert buf[16..] == line[16..] + buf[|line|..];
      AtoiStopsAtNul(line[16..], buf[|line|..]);
    } else {
      assert buf[16..] == "" + buf[16..];
      AtoiStopsAtNul("", buf[16..]);
    }
  }

  /** The do-while loop of `exe_cgi` for POST requests. */
  method ReadPostHeader(client: Socket) returns (contentLength: int)
    modifies client
    ensures client.input == SkipHeader(old(client.input))
    ensures contentLength == PostLength(old(client.input), 0)
  {
    var buf := new char[BUFFER_SIZE];
    contentLength := 0;
    ghost var whole := client.input;
    while true
      invariant SkipHeader(whole) == SkipHeader(client.input)
      invariant PostLength(whole, 0) == PostLength(client.input, contentLength)
      decreases |client.input|
    {
      ghost var before := client.input;
      LineSplitsNorm(before, ROOM);
      forall k | 0 <= k < buf.Length {
        buf[k] := NUL;
      }
      var numchars := GetLineZeroed(client, buf);
      BlankLineTest(buf[..], before);
      LineInBuffer(buf[..], Line(before, ROOM), contentLength);
      if NamesContentLength(buf[..]) {
        contentLength := LengthAt16(buf[..]);
      }
      if !(numchars > 0 && !IsBlankLine(buf[..])) {
        break;
      }
    }
  }

  /** `get_line` into a buffer that was just zeroed. */
  method GetLineZeroed(client: Socket, buf: array<char>) returns (i: int)
    requires buf.Length == BUFFER_SIZE && forall k :: 0 <= k < buf.Length ==> buf[k] == NUL
    modifies client, buf
    ensures i == |Line(old(client.input), ROOM)| && HoldsLine(buf[..], Line(old(client.input), ROOM))
    ensures client.input == AfterLine(old(client.input), ROOM)
  {
    i := GetLine(client, buf, buf.Length);
    ghost var b := buf[..];
    assert forall k :: i + 1 <= k < buf.Length ==> b[k] == b[i + 1..][k - i - 1];
    assert b[..i] == Line(old(client.input), ROOM);
  }

  // --------------------------------------------- where the header ends

  /** The length of the first line of a raw stream, without its line end. */
  function LineEnd(s: string): (k: nat)
    ensures k <= |s| && '\r' !in s[..k] && '\n' !in s[..k]
    ensures k < |s| ==> s[k] == '\r' || s[k] == '\n'
  {
    if s == "" || s[0] == '\r' || s[0] == '\n' then 0 else 1 + LineEnd(s[1..])
  }

  /** The raw stream behind that line and its LF, CR or CRLF. */
  function NextLine(s: string): string
    requires LineEnd(s) < |s|
  {
    var t := s[LineEnd(s)..];
    t[Width(t)..]
  }

  /** Where a header ends, by whole lines: behind the first line that is empty or a multiple of 1023
      bytes long, or at the end of the input. */
  function AfterHeader(s: string): string
    decreases |s|
  {
    if LineEnd(s) == |s| then ""
    else if IsMultiple(LineEnd(s), ROOM) then NextLine(s)
    else AfterHeader(NextLine(s))
  }

  lemma OneByteOn(s: string)
    requires LineEnd(s) > 0
    ensures LineEnd(s[1..]) == LineEnd(s) - 1
    ensures LineEnd(s) < |s| ==> NextLine(s[1..]) == NextLine(s)
  {
    if LineEnd(s) < |s| {
      assert s[1..][LineEnd(s) - 1..] == s[LineEnd(s)..];
    }
  }

  lemma FrontAndBack(s: string, n: nat)
    requires 0 < n <= |s|
    ensures s[..n] == [s[0]] + s[1..][..n - 1] && s[n..] == s[1..][n - 1..]
    ensures s == [s[0]] + s[1..]
  {
  }

  lemma {:induction false} FullBuffer(s: string, room: nat)
    requires LineEnd(s) >= room
    ensures Line(s, room) == s[..room] && AfterLine(s, room) == s[room..]
    decreases room
  {
    if room > 0 {
      OneByteOn(s);
      FullBuffer(s[1..], room - 1);
      FrontAndBack(s, room);
    }
  }

  lemma {:induction false} LastLine(s: string, room: nat)
    requires LineEnd(s) == |s| < room
    ensures Line(s, room) == s && AfterLine(s, room) == ""
    decreases room
  {
    if s != "" {
      OneByteOn(s);
      LastLine(s[1..], room - 1);
      FrontAndBack(s, |s|);
    }
  }

  lemma {:induction false} WholeLine(s: string, room: nat)
    requires LineEnd(s) < room && LineEnd(s) < |s|
    ensures Line(s, room) == s[..LineEnd(s)] + "\n" && AfterLine(s, room) == NextLine(s)
    decreases room
  {
    var k := LineEnd(s);
    if k > 0 {
      OneByteOn(s);
      WholeLine(s[1..], room - 1);
      FrontAndBack(s, k);
      assert [s[0]] + s[1..][..k - 1] + "\n" == [s[0]] + (s[1..][..k - 1] + "\n");
    }
  }

  /** One call takes the line with its line end if it fits the buffer, and a full buffer of it
      otherwise. */
  lemma CallTakes(s: string, room: nat)
    ensures var k := LineEnd(s);
            && (k >= room ==> Line(s, room) == s[..room] && AfterLine(s, room) == s[room..])
            && (k < room && k == |s| ==> Line(s, room) == s && AfterLine(s, room) == "")
            && (k < room && k < |s| ==> Line(s, room) == s[..k] + "\n" && AfterLine(s, room) == NextLine(s))
  {
    if LineEnd(s) >= room {
      FullBuffer(s, room);
    } else if LineEnd(s) == |s| {
      LastLine(s, room);
    } else {
      WholeLine(s, room);
    }
  }

  lemma {:induction false} LineEndBehind(s: string, n: nat)
    requires n <= LineEnd(s)
    ensures LineEnd(s[n..]) == LineEnd(s) - n
    ensures LineEnd(s) < |s| ==> NextLine(s[n..]) == NextLine(s)
    decreases n
  {
    if n == 0 {
      assert s[0..] == s;
    } else {
      OneByteOn(s);
      LineEndBehind(s[1..], n - 1);
      assert s[1..][n - 1..] == s[n..];
    }
  }

  /** The calls of a header loop on one line. The loop goes on behind the line unless the last of the
      calls delivers the line end alone. */
  lemma {:induction false} SkipOneLine(s: string)
    ensures SkipHeader(s) == if LineEnd(s) == |s| then ""
                             else if IsMultiple(LineEnd(s), ROOM) then NextLine(s)
                             else SkipHeader(NextLine(s))
    decreases |s|
  {
    var k := LineEnd(s);
    CallTakes(s, ROOM);
    if k >= ROOM {
      LineEndBehind(s, ROOM);
      SkipOneLine(s[ROOM..]);
    } else if k == 0 && s != "" {
      assert s[..0] + "\n" == "\n";
    }
  }

  /** Both header loops stop, on the raw stream, right behind the earliest of: the blank line, a line
      whose length is a positive multiple of 1023, the end of the input. */
  lemma {:induction false} HeaderEnd(s: string)
    ensures SkipHeader(s) == AfterHeader(s)
    decreases |s|
  {
    SkipOneLine(s);
    if LineEnd(s) < |s| && !IsMultiple(LineEnd(s), ROOM) {
      HeaderEnd(NextLine(s));
    }
  }

  predicate IsSuffix(r: string, s: string) {
    |r| <= |s| && r == s[|s| - |r|..]
  }

  lemma SuffixOfSuffix(s: string, r: string, q: string)
    requires IsSuffix(r, s) && IsSuffix(q, r)
    ensures IsSuffix(q, s)
  {
  }

  lemma {:induction false} AfterLineIsSuffix(s: string, room: nat)
    ensures IsSuffix(AfterLine(s, room), s)
    decreases room
  {
    if room != 0 && s != "" && Head(s) != '\n' {
      AfterLineIsSuffix(s[Width(s)..], room - 1);
    }
  }

  /** A header loop only ever takes bytes off the front of the stream. */
  lemma {:induction false} HeaderIsPrefix(s: string)
    ensures IsSuffix(SkipHeader(s), s)
    decreases |s|
  {
    LineSplitsNorm(s, ROOM);
    AfterLineIsSuffix(s, ROOM);
    var rest := AfterLine(s, ROOM);
    if !EndsHeader(Line(s, ROOM)) {
      HeaderIsPrefix(rest);
      SuffixOfSuffix(s, rest, SkipHeader(rest));
    }
  }

  // ------------------------------------------------ printed headers

  datatype Header = Header(text: string, crlf: bool) {
    /** A header line of any length. */
    predicate Valid() {
      text != "" && '\r' !in text && '\n' !in text
    }

    /** Its line end does not fall right behind a full buffer. */
    predicate Seen() {
      |text| % ROOM != 0
    }

    function Print(): string {
      text + Eol(crlf)
    }
  }

  function Eol(crlf: bool): string {
    if crlf then "\r\n" else "\n"
  }

  function PrintHeaders(hs: seq<Header>): string {
    if hs == [] then "" else hs[0].Print() + PrintHeaders(hs[1..])
  }

  /** The buffers in which the line arrives. */
  function Pieces(text: string): seq<string> {
    if |text| < ROOM then [text + "\n"] else [text[..ROOM]] + Pieces(text[ROOM..])
  }

  function UpdateAll(lines: seq<string>, acc: int): int
    decreases |lines|
  {
    if lines == [] then acc else UpdateAll(lines[1..], UpdateLength(lines[0], acc))
  }

  /** The length announced by a list of headers, the last one winning. */
  function AnnouncedLength(hs: seq<Header>, acc: int): int
    decreases |hs|
  {
    if hs == [] then acc else AnnouncedLength(hs[1..], UpdateAll(Pieces(hs[0].text), acc))
  }

  lemma {:induction false} PrintedLine(text: string, crlf: bool, rest: string)
    requires '\r' !in text && '\n' !in text
    ensures var s := text + Eol(crlf) + rest;
            LineEnd(s) == |text| < |s| && NextLine(s) == rest
    decreases |text|
  {
    var s := text + Eol(crlf) + rest;
    if text == "" {
      assert s == Eol(crlf) + rest && s[0..] == s;
    } else {
      assert s[1..] == text[1..] + Eol(crlf) + rest;
      PrintedLine(text[1..], crlf, rest);
      assert s[1..][LineEnd(s) - 1..] == s[LineEnd(s)..];
    }
  }

  lemma LengthOfShortLine(text: string, crlf: bool, rest: string, acc: int)
    requires '\r' !in text && '\n' !in text && 0 < |text| < ROOM
    ensures PostLength(text + Eol(crlf) + rest, acc) == PostLength(rest, UpdateAll(Pieces(text), acc))
  {
    var s, acc' := text + Eol(crlf) + rest, UpdateLength(text + "\n", acc);
    PrintedLine(text, crlf, rest);
    CallTakes(s, ROOM);
    assert s[..|text|] == text;
    assert [text + "\n"][1..] == [];
    assert UpdateAll(Pieces(text), acc) == UpdateAll([], acc');
  }

  lemma LengthOfFullBuffer(s: string, acc: int)
    requires LineEnd(s) >= ROOM
    ensures PostLength(s, acc) == PostLength(s[ROOM..], UpdateLength(s[..ROOM], acc))
  {
    CallTakes(s, ROOM);
  }

  lemma FirstPiece(text: string, acc: int)
    requires |text| >= ROOM
    ensures UpdateAll(Pieces(text), acc) == UpdateAll(Pieces(text[ROOM..]), UpdateLength(text[..ROOM], acc))
  {
    assert Pieces(text)[1..] == Pieces(text[ROOM..]);
  }

  lemma FirstBuffer(text: string, crlf: bool, rest: string, acc: int)
    requires '\r' !in text && '\n' !in text && |text| >= ROOM
    ensures PostLength(text + Eol(crlf) + rest, acc)
            == PostLength(text[ROOM..] + Eol(crlf) + rest, UpdateLength(text[..ROOM], acc))
  {
    PrintedLine(text, crlf, rest);
    LengthOfFullBuffer(text + Eol(crlf) + rest, acc);
    FrontOf(text, Eol(crlf), rest, ROOM);
  }

  lemma FrontOf(a: string, b: string, c: string, n: nat)
    requires n <= |a|
    ensures (a + b + c)[..n] == a[..n] && (a + b + c)[n..] == a[n..] + b + c
  {
  }

  /** What one printed line does to the length: every buffer it arrives in is looked at. */
  lemma {:induction false} LengthOfLine(text: string, crlf: bool, rest: string, acc: int)
    requires '\r' !in text && '\n' !in text && |text| % ROOM != 0
    ensures PostLength(text + Eol(crlf) + rest, acc) == PostLength(rest, UpdateAll(Pieces(text), acc))
    decreases |text|
  {
    if |text| < ROOM {
      LengthOfShortLine(text, crlf, rest, acc);
    } else {
      FirstBuffer(text, crlf, rest, acc);
      ModLess(|text|, ROOM);
      LengthOfLine(text[ROOM..], crlf, rest, UpdateLength(text[..ROOM], acc));
      FirstPiece(text, acc);
    }
  }

  lemma SkipOneHeader(h: Header, rest: string)
    requires h.Valid()
    ensures SkipHeader(h.Print() + rest) == if h.Seen() then SkipHeader(rest) else rest
  {
    PrintedLine(h.text, h.crlf, rest);
    SkipOneLine(h.Print() + rest);
    MultipleIsMod(|h.text|, ROOM);
  }

  /** Printed headers, a blank line and anything behind it: the loops stop exactly there if and only
      if no header is a multiple of 1023 bytes long. */
  lemma {:induction false} HeadersRoundTrip(hs: seq<Header>, crlf: bool, body: string)
    requires forall i :: 0 <= i < |hs| ==> hs[i].Valid()
    ensures SkipHeader(PrintHeaders(hs) + Eol(crlf) + body) == body <==> forall i :: 0 <= i < |hs| ==> hs[i].Seen()
    decreases |hs|
  {
    var s := PrintHeaders(hs) + Eol(crlf) + body;
    if hs == [] {
      assert s == "" + Eol(crlf) + body;
      PrintedLine("", crlf, body);
      SkipOneLine(s);
    } else {
      var h, rest := hs[0], PrintHeaders(hs[1..]) + Eol(crlf) + body;
      assert s == h.Print() + rest;
      SkipOneHeader(h, rest);
      if h.Seen() {
        HeadersRoundTrip(hs[1..], crlf, body);
        assert forall i :: 1 <= i < |hs| ==> hs[i] == hs[1..][i - 1];
      } else {
        assert |rest| > |body|;
      }
    }
  }

  /** Where the loops stop when a header is a multiple of 1023 bytes long: behind the first such
      header, the rest of the header section being taken for what follows it. */
  lemma {:induction false} FalseEnd(before: seq<Header>, h: Header, rest: string)
    requires forall i :: 0 <= i < |before| ==> before[i].Valid() && before[i].Seen()
    requires h.Valid() && !h.Seen()
    ensures SkipHeader(PrintHeaders(before) + h.Print() + rest) == rest
    decreases |before|
  {
    var s := PrintHeaders(before) + h.Print() + rest;
    if before == [] {
      assert s == h.Print() + rest;
      SkipOneHeader(h, rest);
    } else {
      var b, s' := before[0], PrintHeaders(before[1..]) + h.Print() + rest;
      assert s == b.Print() + s';
      SkipOneHeader(b, s');
      FalseEnd(before[1..], h, rest);
    }
  }

  /** A header of 1023 bytes in front of another one and the blank line: the loops stop before the
      second header. */
  lemma LongHeaderEndsEarly()
    ensures var long, other := Header(Repeat('a', 1023), true), Header("Host: b", true);
            SkipHeader(PrintHeaders([long, other]) + "\r\n" + "body") == "Host: b\r\n\r\nbody"
  {
    var long, other := Header(Repeat('a', 1023), true), Header("Host: b", true);
    var rest := "Host: b\r\n\r\nbody";
    FalseEnd([], long, rest);
    assert [long, other][1..] == [other] && [other][1..] == [];
    assert PrintHeaders([other]) == "Host: b" + "\r\n" + "";
    assert PrintHeaders([long, other]) + "\r\n" + "body" == PrintHeaders([]) + long.Print() + rest;
  }

  /** The length the POST loop returns for printed headers that are all seen as such. */
  lemma {:induction false} LengthRoundTrip(hs: seq<Header>, crlf: bool, body: string, acc: int)
    requires forall i :: 0 <= i < |hs| ==> hs[i].Valid() && hs[i].Seen()
    ensures PostLength(PrintHeaders(hs) + Eol(crlf) + body, acc) == AnnouncedLength(hs, acc)
    decreases |hs|
  {
    var s := PrintHeaders(hs) + Eol(crlf) + body;
    if hs == [] {
      assert s == "" + Eol(crlf) + body;
      PrintedLine("", crlf, body);
      CallTakes(s, ROOM);
      assert s[..0] + "\n" == "\n";
    } else {
      var h, rest := hs[0], PrintHeaders(hs[1..]) + Eol(crlf) + body;
      assert s == h.text + Eol(h.crlf) + rest;
      LengthOfLine(h.text, h.crlf, rest, acc);
      LengthRoundTrip(hs[1..], crlf, body, UpdateAll(Pieces(h.text), acc));
    }
  }

  lemma {:induction false} AnnouncedLengthSplit(a: seq<Header>, b: seq<Header>, acc: int)
    ensures AnnouncedLength(a + b, acc) == AnnouncedLength(b, AnnouncedLength(a, acc))
    decreases |a|
  {
    if a == [] {
      assert a + b == b;
    } else {
      assert (a + b)[1..] == a[1..] + b;
      AnnouncedLengthSplit(a[1..], b, UpdateAll(Pieces(a[0].text), acc));
    }
  }

  /** No buffer in which the line arrives starts with the name. */
  predicate Silent(h: Header) {
    forall k :: 0 <= k < |Pieces(h.text)| ==> !NamesContentLength(Pieces(h.text)[k])
  }

  lemma {:induction false} SilentLines(lines: seq<string>, acc: int)
    requires forall k :: 0 <= k < |lines| ==> !NamesContentLength(lines[k])
    ensures UpdateAll(lines, acc) == acc
    decreases |lines|
  {
    if lines != [] { SilentLines(lines[1..], acc); }
  }

  lemma {:induction false} LoudLines(lines: seq<string>, k: nat, a: int, b: int)
    requires k < |lines| && NamesContentLength(lines[k])
    ensures UpdateAll(lines, a) == UpdateAll(lines, b)
    decreases |lines|
  {
    if k > 0 { LoudLines(lines[1..], k - 1, UpdateLength(lines[0], a), UpdateLength(lines[0], b)); }
  }

  predicate Keeps(h: Header, acc: int) {
    UpdateAll(Pieces(h.text), acc) == acc
  }

  /** A header leaves the length alone, whatever it was, if and only if it is silent. */
  lemma SilentExact(h: Header)
    ensures (forall acc: int :: Keeps(h, acc)) <==> Silent(h)
  {
    if Silent(h) {
      forall acc: int ensures Keeps(h, acc) {
        SilentLines(Pieces(h.text), acc);
      }
    } else {
      var k :| 0 <= k < |Pieces(h.text)| && NamesContentLength(Pieces(h.text)[k]);
      LoudLines(Pieces(h.text), k, 0, 1);
      assert !Keeps(h, 0) || !Keeps(h, 1);
    }
  }

  /** A header with another name sets the length when the text behind a full buffer reads like the
      field. */
  lemma LengthInsideHeader(acc: int)
    ensures AnnouncedLength([Header("X: " + Repeat('a', 1020) + "Content-Length: 9", true)], acc) == 9
  {
    var a, b := "X: " + Repeat('a', 1020), "Content-Length: 9";
    assert a[0] == 'X' && !NamesContentLength(a);
    NineIsRead(b + "\n");
    TwoPieces(a, b, acc);
    var h := Header(a + b, true);
    assert [h][1..] == [];
  }

  lemma NineIsRead(line: string)
    requires line == "Content-Length: 9\n"
    ensures NamesContentLength(line) && LengthAt16(line) == 9
  {
    assert line[..14] == CONTENT_LENGTH && line[16..] == "9\n";
    assert "9\n"[1..] == "\n";
  }

  lemma TwoPieces(a: string, b: string, acc: int)
    requires |a| == ROOM && |b| < ROOM
    ensures UpdateAll(Pieces(a + b), acc) == UpdateLength(b + "\n", UpdateLength(a, acc))
  {
    var text, line, none: seq<string> := a + b, b + "\n", [];
    assert text[..ROOM] == a && text[ROOM..] == b;
    FirstPiece(text, acc);
    assert Pieces(b) == [line] && [line][1..] == none;
  }

  lemma {:induction false} OtherHeadersKeepLength(hs: seq<Header>, acc: int)
    requires forall i :: 0 <= i < |hs| ==> Silent(hs[i])
    ensures AnnouncedLength(hs, acc) == acc
    decreases |hs|
  {
    if hs != [] {
      SilentLines(Pieces(hs[0].text), acc);
      OtherHeadersKeepLength(hs[1..], acc);
    }
  }

  /** The last header that names the length decides, whatever came before it. */
  lemma LastLengthWins(before: seq<Header>, h: Header, others: seq<Header>, acc: int)
    requires NamesContentLength(h.text + "\n") && |h.text| < ROOM
    requires forall i :: 0 <= i < |others| ==> Silent(others[i])
    ensures AnnouncedLength(before + [h] + others, acc) == LengthAt16(h.text + "\n")
  {
    assert before + [h] + others == before + ([h] + others);
    AnnouncedLengthSplit(before, [h] + others, acc);
    assert ([h] + others)[1..] == others;
    var acc' := AnnouncedLength(before, acc);
    assert [h.text + "\n"][1..] == [];
    assert UpdateAll(Pieces(h.text), acc') == UpdateAll([], UpdateLength(h.text + "\n", acc'));
    OtherHeadersKeepLength(others, LengthAt16(h.text + "\n"));
  }

  // -------------------------------------------- reading the length field

  predicate IsName(name: string) {
    Spells(name, "Content-Length")
  }

  lemma FieldNamesLength(name: string, value: string)
    requires IsName(name)
    ensures NamesContentLength(name + ":" + value)
  {
    assert (name + ":" + value)[..14] == name;
  }

  /** A field is taken for the length rightly or wrongly: the test agrees with the field's name unless
      that name merely starts with `Content-Length`. */
  lemma LengthNameExact(name: string, value: string)
    requires ':' !in name
    ensures (NamesContentLength(name + ":" + value) <==> IsName(name))
            <==> !(|name| > 14 && Spells(name[..14], "Content-Length"))
  {
    var field := name + ":" + value;
    if |name| < 14 {
      assert |field| >= 14 ==> field[..14][|name|] == ':';
      assert Lower(':') != Lower(CONTENT_LENGTH[|name|]);
    } else {
      assert field[..14] == name[..14];
    }
  }

  /** The name of a field as long as `Content-Length` is taken for it if and only if each character is the
      same or the same letter in the other case. */
  lemma LengthNameInAnyCase(name: string, rest: string)
    requires |name| == 14
    ensures NamesContentLength(name + rest)
            <==> forall k :: 0 <= k < 14 ==> SameLetter(name[k], "Content-Length"[k])
  {
    assert (name + rest)[..14] == name;
    SameIgnoringCaseExact(name, CONTENT_LENGTH);
  }

  /** Two ways clients write it. */
  lemma LengthInTwoCases(acc: int)
    ensures UpdateLength("content-length" + ": 5\n", acc) == 5
    ensures UpdateLength("CONTENT-LENGTH" + ": 5\n", acc) == 5
  {
    FiveIsRead("content-length", acc);
    FiveIsRead("CONTENT-LENGTH", acc);
  }

  lemma FiveIsRead(name: string, acc: int)
    requires name == "content-length" || name == "CONTENT-LENGTH"
    ensures UpdateLength(name + ": 5\n", acc) == 5
  {
    var line := name + ": 5\n";
    LengthNameInAnyCase(name, ": 5\n");
    assert line[16..] == "5\n" && "5\n"[1..] == "\n";
  }

  /** `Content-Length-Range: 9` sets the length, to 0. */
  lemma LongerNameIsTaken(acc: int)
    ensures !IsName("Content-Length-Range") && UpdateLength("Content-Length-Range: 9\n", acc) == 0
  {
    var line := "Content-Length-Range: 9\n";
    assert line[..14] == CONTENT_LENGTH;
    assert line[16..] == "ange: 9\n";
  }

  lemma SpacedLength(name: string, blanks: string, digits: string)
    requires IsName(name) && blanks != ""
    requires forall k :: 0 <= k < |blanks| ==> Blank(blanks[k])
    requires digits != "" && AllDigits(digits) && ReadDigits(digits, 0) < TWO31
    ensures LengthAt16(name + ":" + (blanks + digits + "\n")) == ReadDigits(digits, 0)
  {
    var line := name + ":" + (blanks + digits + "\n");
    assert line[16..] == blanks[1..] + digits + "\n";
    AtoiDigits(blanks[1..], digits, "\n");
  }

  lemma UnspacedLength(name: string, digits: string)
    requires IsName(name)
    requires digits != "" && AllDigits(digits) && ReadDigits(digits, 0) < TWO31
    ensures LengthAt16(name + ":" + (digits + "\n")) == ReadDigits(digits[1..], 0)
  {
    var line, rest := name + ":" + (digits + "\n"), digits[1..];
    assert line[16..] == "" + rest + "\n";
    FirstDigitWeighs(digits);
    if rest == "" {
      assert "" + rest + "\n" == "\n";
    } else {
      AtoiDigits("", rest, "\n");
    }
  }

  lemma SmallLengthExact(name: string, blanks: string, digits: string)
    requires IsName(name)
    requires forall k :: 0 <= k < |blanks| ==> Blank(blanks[k])
    requires digits != "" && AllDigits(digits) && ReadDigits(digits, 0) < TWO31
    ensures LengthAt16(name + ":" + (blanks + digits + "\n")) == ReadDigits(digits, 0)
            <==> blanks != "" || digits[0] == '0'
  {
    if blanks != "" {
      SpacedLength(name, blanks, digits);
    } else {
      assert blanks + digits + "\n" == digits + "\n";
      UnspacedLength(name, digits);
      FirstDigitWeighs(digits);
    }
  }

  /** The value read from `Content-Length:` blanks digits is the value of the digits if and only if that
      is an `int`, and there is at least one blank or the digit that index 16 skips is a zero. */
  lemma LengthFieldExact(name: string, blanks: string, digits: string)
    requires IsName(name)
    requires forall k :: 0 <= k < |blanks| ==> Blank(blanks[k])
    requires digits != "" && AllDigits(digits)
    ensures var line := name + ":" + (blanks + digits + "\n");
            && NamesContentLength(line)
            && (LengthAt16(line) == ReadDigits(digits, 0)
                <==> ReadDigits(digits, 0) < TWO31 && (blanks != "" || digits[0] == '0'))
  {
    FieldNamesLength(name, blanks + digits + "\n");
    if ReadDigits(digits, 0) < TWO31 {
      SmallLengthExact(name, blanks, digits);
    }
  }

  /** What is read from a spaced field of any size: the value saturated at 64 bits and cut to 32. */
  lemma SpacedLengthWraps(name: string, blanks: string, digits: string)
    requires IsName(name) && blanks != ""
    requires forall k :: 0 <= k < |blanks| ==> Blank(blanks[k])
    requires digits != "" && AllDigits(digits)
    ensures LengthAt16(name + ":" + (blanks + digits + "\n")) == ToInt32(Clamp64(ReadDigits(digits, 0)))
  {
    var line := name + ":" + (blanks + digits + "\n");
    assert line[16..] == blanks[1..] + digits + "\n";
    AtoiWraps(blanks[1..], digits, "\n");
  }

  /** `Content-Length: 4294967301` is read as 5, and `Content-Length: 4294967295` as the length that is
      answered with an error. */
  lemma LongLengthsAreCut()
    ensures LengthAt16(CONTENT_LENGTH + ":" + (" " + "4294967301" + "\n")) == 5
    ensures LengthAt16(CONTENT_LENGTH + ":" + (" " + "4294967295" + "\n")) == -1
  {
    LongLength("42949", "67301", 4294967301);
    LongLength("42949", "67295", 4294967295);
    assert "42949" + "67301" == "4294967301" && "42949" + "67295" == "4294967295";
  }

  lemma LongLength(high: string, low: string, n: nat)
    requires |high| == |low| == 5 && AllDigits(high) && AllDigits(low)
    requires n == FiveDigits(high) * 100000 + FiveDigits(low)
    ensures LengthAt16(CONTENT_LENGTH + ":" + (" " + (high + low) + "\n")) == ToInt32(Clamp64(n))
  {
    LongNumber(high, low, FiveDigits(high), FiveDigits(low));
    SpacedLengthWraps(CONTENT_LENGTH, " ", high + low);
  }

  lemma LongNumber(high: string, low: string, h: nat, l: nat)
    requires |high| == |low| == 5 && AllDigits(high) && AllDigits(low)
    requires h == FiveDigits(high) && l == FiveDigits(low)
    ensures ReadDigits(high + low, 0) == h * 100000 + l
  {
    ReadDigitsSplit(high, low, 0);
    ReadFive(high, 0);
    ReadFive(low, h);
  }

  function FiveDigits(s: string): nat
    requires |s| == 5 && AllDigits(s)
  {
    10000 * DigitValue(s[0]) + 1000 * DigitValue(s[1]) + 100 * DigitValue(s[2]) + 10 * DigitValue(s[3]) + DigitValue(s[4])
  }

  lemma ReadOne(s: string, acc: nat)
    requires s != "" && IsDigit(s[0])
    ensures ReadDigits(s, acc) == ReadDigits(s[1..], acc * 10 + DigitValue(s[0]))
  {
  }

  lemma ReadFive(s: string, acc: nat)
    requires |s| == 5 && AllDigits(s)
    ensures ReadDigits(s, acc) == acc * 100000 + FiveDigits(s)
  {
    var a1 := acc * 10 + DigitValue(s[0]);
    var a2 := a1 * 10 + DigitValue(s[1]);
    var a3 := a2 * 10 + DigitValue(s[2]);
    var a4 := a3 * 10 + DigitValue(s[3]);
    assert s[1..][1..] == s[2..] && s[2..][1..] == s[3..] && s[3..][1..] == s[4..] && s[4..][1..] == "";
    ReadOne(s, acc);
    ReadOne(s[1..], a1);
    ReadOne(s[2..], a2);
    ReadOne(s[3..], a3);
    ReadOne(s[4..], a4);
  }

  /** `Content-Length:5` without a blank is read as 0. */
  lemma UnspacedLengthIsMisread()
    ensures LengthAt16("Content-Length:5\n") == 0 != ReadDigits("5", 0)
  {
    assert "Content-Length:5\n"[16..] == "\n";
  }
}
