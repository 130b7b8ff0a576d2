/** The request line: `accept_request` cuts it into method and URL and splits the URL's query off. */
module RequestLine {
  import opened CText

  const BUFFER_SIZE: nat := 1024
  const METHOD_SIZE: nat := 102
  const MAIN_PAGE := "index.html"

  /** The longest run of non-space characters that starts `s`, cut at `room`. */
  function Token(s: string, room: nat): string {
    if room == 0 || s == "" || IsSpace(s[0]) then "" else [s[0]] + Token(s[1..], room - 1)
  }

  function MethodOf(line: string): (m: string)
    ensures |m| <= |line|
  {
    TokenLength(line, METHOD_SIZE - 1);
    Token(line, METHOD_SIZE - 1)
  }

  /** The buffer from the URL's first character on. */
  function FromUrl(line: string): string {
    SkipSpaces(line[|MethodOf(line)|..])
  }

  function UrlOf(line: string): string {
    Token(FromUrl(line), BUFFER_SIZE - 1)
  }

  predicate HasSpace(s: string) {
    exists k :: 0 <= k < |s| && IsSpace(s[k])
  }

  /** The scanning loops test the character before they test the index, so they stay inside the buffer
      because a space follows the URL. */
  predicate UrlTerminated(line: string) {
    HasSpace(FromUrl(line))
  }

  lemma {:induction false} TokenLength(s: string, room: nat)
    ensures |Token(s, room)| <= room && |Token(s, room)| <= |s|
    ensures HasSpace(s) ==> |Token(s, room)| < |s|
    decreases room
  {
    if room != 0 && s != "" && !IsSpace(s[0]) {
      if k :| 0 <= k < |s| && IsSpace(s[k]) { assert IsSpace(s[1..][k - 1]); }
      TokenLength(s[1..], room - 1);
    }
  }

  function Padded(s: string, n: nat): string
    requires |s| <= n
  {
    s + Repeat(NUL, n - |s|)
  }

  /** Copying one more character of a token. */
  lemma TokenStep(whole: string, room: nat, done: string, rest: string)
    requires |done| <= room && Token(whole, room) == done + Token(rest, room - |done|)
    requires HasSpace(rest)
    ensures rest != ""
    ensures !IsSpace(rest[0]) && |done| < room ==>
              && Token(whole, room) == (done + [rest[0]]) + Token(rest[1..], room - |done| - 1)
              && HasSpace(rest[1..])
    ensures IsSpace(rest[0]) || |done| == room ==> Token(whole, room) == done
  {
    var k :| 0 <= k < |rest| && IsSpace(rest[k]);
    if !IsSpace(rest[0]) && |done| < room {
      assert IsSpace(rest[1..][k - 1]);
      assert done + ([rest[0]] + Token(rest[1..], room - |done| - 1))
             == (done + [rest[0]]) + Token(rest[1..], room - |done| - 1);
    }
  }

  lemma {:induction false} SkipSpacesKeepsSpace(s: string)
    requires HasSpace(SkipSpaces(s))
    ensures HasSpace(s) && s != ""
  {
    if IsSpace(s[0]) {
      assert 0 <= 0 < |s|;
    }
  }

  /** One copying loop of the tokeniser, from position `j` on; `i` runs in the destination. */
  method CopyToken(buffer: array<char>, j: nat, dst: array<char>) returns (j': nat)
    requires dst != buffer && j <= buffer.Length && dst.Length >= 1
    requires HasSpace(buffer[j..]) && forall k :: 0 <= k < dst.Length ==> dst[k] == NUL
    modifies dst
    ensures var t := Token(buffer[j..], dst.Length - 1);
            && |t| < dst.Length && j' == j + |t| < buffer.Length
            && dst[..] == Padded(t, dst.Length)
  {
    var i := 0;
    j' := j;
    ghost var b, room, done := buffer[..], dst.Length - 1, "";
    ghost var whole := b[j..];
    CopyStart(b, j, room);
    assert dst[..] == Padded("", dst.Length);
    while !IsSpace(buffer[j']) && i < dst.Length - 1 && j' < buffer.Length
      invariant j' == j + i < buffer.Length && i == |done| <= room
      invariant CopyState(b, j', whole, room, done)
      invariant dst[..] == Padded(done, dst.Length)
    {
      CopyStep(b, j', whole, room, done);
      PaddedStep(done, dst.Length, buffer[j']);
      ghost var d := dst[..];
      dst[i] := buffer[j'];
      assert dst[..] == d[i := buffer[j']];
      done := done + [buffer[j']];
      i, j' := i + 1, j' + 1;
    }
    CopyDone(b, j', whole, room, done);
  }

  lemma CopyStart(b: string, j: nat, room: nat)
    requires j <= |b| && HasSpace(b[j..])
    ensures CopyState(b, j, b[j..], room, "")
  {
    assert "" + Token(b[j..], room) == Token(b[j..], room);
  }

  lemma CopyDone(b: string, j: nat, whole: string, room: nat, done: string)
    requires CopyState(b, j, whole, room, done) && (IsSpace(b[j]) || |done| == room)
    ensures Token(whole, room) == done
  {
    TokenStep(whole, room, done, b[j..]);
  }

  lemma PaddedStep(done: string, n: nat, c: char)
    requires |done| < n
    ensures Padded(done, n)[|done| := c] == Padded(done + [c], n)
  {
  }

  ghost predicate CopyState(b: string, j: nat, whole: string, room: nat, done: string) {
    j < |b| && |done| <= room && HasSpace(b[j..]) && Token(whole, room) == done + Token(b[j..], room - |done|)
  }

  lemma CopyStep(b: string, j: nat, whole: string, room: nat, done: string)
    requires CopyState(b, j, whole, room, done) && !IsSpace(b[j]) && |done| < room
    ensures j + 1 < |b| && CopyState(b, j + 1, whole, room, done + [b[j]])
  {
    TokenStep(whole, room, done, b[j..]);
    assert b[j..][1..] == b[j + 1..];
  }

  /** The loop over the blanks in front of the URL. */
  method SkipBlanks(buffer: array<char>, j: nat) returns (j': nat)
    requires j <= buffer.Length && SkipSpaces(buffer[j..]) != ""
    ensures j <= j' < buffer.Length && buffer[j'..] == SkipSpaces(buffer[j..])
  {
    j' := j;
    ghost var b := buffer[..];
    while IsSpace(buffer[j']) && j' < buffer.Length
      invariant j <= j' < buffer.Length
      invariant SkipSpaces(b[j'..]) == SkipSpaces(b[j..]) != ""
    {
      assert b[j'..][1..] == b[j' + 1..];
      j' := j' + 1;
    }
  }

  /** The two copying loops of `accept_request` and the loop between them. */
  method Tokenise(buffer: array<char>, meth: array<char>, url: array<char>)
    requires buffer != meth && buffer != url && meth != url
    requires meth.Length == METHOD_SIZE && url.Length == BUFFER_SIZE
    requires forall k :: 0 <= k < meth.Length ==> meth[k] == NUL
    requires forall k :: 0 <= k < url.Length ==> url[k] == NUL
    requires UrlTerminated(buffer[..])
    modifies meth, url
    ensures |MethodOf(buffer[..])| < METHOD_SIZE && meth[..] == Padded(MethodOf(buffer[..]), METHOD_SIZE)
    ensures |UrlOf(buffer[..])| < BUFFER_SIZE && url[..] == Padded(UrlOf(buffer[..]), BUFFER_SIZE)
  {
    ghost var line := buffer[..];
    SkipSpacesKeepsSpace(line[|MethodOf(line)|..]);
    SuffixKeepsSpace(line, |MethodOf(line)|);
    assert buffer[0..] == line;
    var j := CopyToken(buffer, 0, meth);
    assert buffer[j..] == line[|MethodOf(line)|..];
    j := SkipBlanks(buffer, j);
    assert buffer[j..] == FromUrl(line);
    j := CopyToken(buffer, j, url);
  }

  /** The highest position the loops test: each tests the character at the position where it stops. */
  function LastTested(line: string): int {
    |line| - |FromUrl(line)| + |UrlOf(line)|
  }

  /** On a buffer of 1024 bytes the scanning stays inside the buffer exactly when a blank follows the
      URL. */
  lemma StaysInside(line: string)
    requires |line| == 1024
    ensures UrlTerminated(line) <==> LastTested(line) < 1024
  {
    var m, u := MethodOf(line), FromUrl(line);
    TokenLength(u, BUFFER_SIZE - 1);
    if |u| == BUFFER_SIZE {
      NothingSkipped(line);
    }
    if !HasSpace(u) {
      TokenToEnd(u, BUFFER_SIZE - 1);
    }
  }

  /** The URL never starts at the first position: a line without a method starts with a blank. */
  lemma NothingSkipped(line: string)
    requires line != ""
    ensures |FromUrl(line)| < |line|
  {
    var m := MethodOf(line);
    if m == "" {
      assert line[0..] == line;
    }
  }

  lemma {:induction false} TokenToEnd(t: string, room: nat)
    requires NoSpace(t) && |t| <= room
    ensures Token(t, room) == t
    decreases room
  {
    if t != "" { TokenToEnd(t[1..], room - 1); }
  }

  lemma SuffixKeepsSpace(s: string, n: nat)
    requires n <= |s| && HasSpace(s[n..])
    ensures HasSpace(s)
  {
    var k :| 0 <= k < |s[n..]| && IsSpace(s[n..][k]);
    assert IsSpace(s[n + k]);
  }

  // -------------------------------------------------------- printing and parsing back

  predicate NoSpace(s: string) {
    forall k :: 0 <= k < |s| ==> !Blank(s[k])
  }

  predicate AllSpace(s: string) {
    forall k :: 0 <= k < |s| ==> Blank(s[k])
  }

  lemma {:induction false} TokenOfPrint(t: string, rest: string, room: nat)
    requires NoSpace(t) && |t| <= room
    requires rest != "" && IsSpace(rest[0])
    ensures Token(t + rest, room) == t
    decreases room
  {
    if t == "" {
      assert t + rest == rest;
    } else {
      assert (t + rest)[1..] == t[1..] + rest;
      TokenOfPrint(t[1..], rest, room - 1);
    }
  }

  /** A printed request line parses back to its method and URL, whatever follows the URL's space. */
  lemma RequestLineRoundTrip(meth: string, spaces: string, url: string, tail: string)
    requires meth != "" && NoSpace(meth) && |meth| <= 101
    requires spaces != "" && AllSpace(spaces)
    requires url != "" && NoSpace(url) && |url| <= 1023
    requires tail != "" && Blank(tail[0])
    ensures var line := meth + spaces + url + tail;
            MethodOf(line) == meth && UrlOf(line) == url && UrlTerminated(line)
  {
    var line := meth + spaces + url + tail;
    assert line == meth + (spaces + (url + tail));
    TokenOfPrint(meth, spaces + (url + tail), METHOD_SIZE - 1);
    assert line[|meth|..] == spaces + (url + tail);
    assert (url + tail)[0] == url[0];
    SkipSpacesRun(spaces, url + tail);
    TokenOfPrint(url, tail, BUFFER_SIZE - 1);
    assert (url + tail)[|url|] == tail[0];
  }

  // ------------------------------------------------------------------ the query

  /** The position of the first question mark, or the length. */
  function Mark(u: string): nat {
    IndexOf(u, '?')
  }

  function PathOf(u: string): string {
    u[..Mark(u)]
  }

  function QueryOf(u: string): string {
    if Mark(u) < |u| then u[Mark(u) + 1..] else ""
  }

  /** The split loses nothing: the path has no question mark and the URL is rebuilt from the parts. */
  lemma QueryRebuilds(u: string)
    ensures '?' !in PathOf(u)
    ensures '?' in u ==> PathOf(u) + "?" + QueryOf(u) == u
    ensures '?' !in u ==> PathOf(u) == u && QueryOf(u) == ""
  {
  }

  /** ... and it is the only such split. */
  lemma QueryUnique(path: string, query: string)
    requires '?' !in path
    ensures PathOf(path + "?" + query) == path && QueryOf(path + "?" + query) == query
  {
    IndexIs(path + "?" + query, '?', |path|);
  }

  /** The query split of a GET request: walks to the question mark or the end of the URL and puts a
      NUL over the mark. The query starts at `q`. */
  method SplitQuery(url: array<char>) returns (cgi: bool, q: nat)
    requires NUL in url[..]
    modifies url
    ensures q < url.Length
    ensures cgi <==> '?' in CStr(old(url[..]))
    ensures CStr(url[..]) == PathOf(CStr(old(url[..])))
    ensures CStr(url[q..]) == QueryOf(CStr(old(url[..])))
  {
    ghost var s, n := url[..], IndexOf(url[..], NUL);
    q, cgi := 0, false;
    while url[q] != '?' && url[q] != NUL
      invariant q <= n && forall j :: 0 <= j < q ==> s[j] != '?'
      decreases n - q
    {
      q := q + 1;
    }
    SplitAt(s, q);
    if url[q] == '?' {
      ghost var s' := s[q := NUL];
      url[q] := NUL;
      assert url[..] == s';
      q := q + 1;
      cgi := true;
      assert url[q..] == s'[q..];
    }
  }

  lemma SplitAt(s: string, q: nat)
    requires q <= IndexOf(s, NUL) < |s| && (s[q] == '?' || s[q] == NUL) && forall j :: 0 <= j < q ==> s[j] != '?'
    ensures var u := CStr(s);
            && ('?' in u <==> s[q] == '?')
            && (s[q] == '?' ==> CStr(s[q := NUL]) == PathOf(u) && CStr(s[q := NUL][q + 1..]) == QueryOf(u))
            && (s[q] != '?' ==> u == PathOf(u) && CStr(s[q..]) == "" == QueryOf(u))
  {
    var n := IndexOf(s, NUL);
    var u := CStr(s);
    IndexIs(u, '?', q);
    if s[q] == '?' {
      assert u[q] == '?';
      SplitCut(s, q, n);
    } else {
      assert q == n && '?' !in u;
      assert s[q..][0] == NUL;
    }
  }

  /** A NUL over the question mark leaves two C strings. */
  lemma SplitCut(s: string, q: nat, n: nat)
    requires q < n < |s| && n == IndexOf(s, NUL)
    ensures CStr(s[q := NUL]) == s[..q] && CStr(s[q := NUL][q + 1..]) == s[..n][q + 1..]
  {
    var s' := s[q := NUL];
    IndexIs(s', NUL, q);
    assert s'[..q] == s[..q];
    IndexIs(s'[q + 1..], NUL, n - q - 1);
    assert s'[q + 1..][..n - q - 1] == s[..n][q + 1..];
  }

  // ------------------------------------------------------------------- the path

  /** The file served for a URL path. The main page is appended when the path ends in a backslash
      and when it turns out to be a directory. */
  function TargetOf(path: string, isDir: bool): string {
    var file := "htdocs" + path;
    var file' := if file[|file| - 1] == '\\' then file + MAIN_PAGE else file;
    if isDir then file' + "/" + MAIN_PAGE else file'
  }

  /** The file names: below `htdocs`, with the main page for a directory and behind a backslash. */
  lemma TargetTexts(path: string)
    ensures path == "" || path[|path| - 1] != '\\' ==>
              && TargetOf(path, false) == "htdocs" + path
              && TargetOf(path, true) == "htdocs" + path + "/index.html"
    ensures path != "" && path[|path| - 1] == '\\' ==>
              && TargetOf(path, false) == "htdocs" + path + "index.html"
              && TargetOf(path, true) == "htdocs" + path + "index.html" + "/index.html"
  {
    var file := "htdocs" + path;
    assert path != "" ==> file[|file| - 1] == path[|path| - 1];
    assert path == "" ==> file[|file| - 1] == 's';
    assert "/" + MAIN_PAGE == "/index.html";
  }

  /** The length of a URL path whose file name fits the 1024 bytes of `path`. */
  predicate PathFits(path: string, isDir: bool) {
    |path| + (if path != "" && path[|path| - 1] == '\\' then 10 else 0) + (if isDir then 11 else 0) <= 1017
  }

  lemma PathFitsExact(path: string, isDir: bool)
    ensures PathFits(path, isDir) <==> |TargetOf(path, isDir)| < 1024
  {
    var file := "htdocs" + path;
    assert path != "" ==> file[|file| - 1] == path[|path| - 1];
    assert path == "" ==> file[|file| - 1] == 's';
  }
}
