/** `get_line`: reading a socket line by line, with CRLF and lone CR folded into LF. */
module LineReader {
  import opened CText

  /** The receiving side of a socket: the bytes the peer will still deliver, then end of input for ever. */
  class Socket {
    var input: string

    constructor (bytes: string)
      ensures input == bytes
    {
      input := bytes;
    }

    /** `recv(sock, &c, 1, 0)`: `c` keeps its value when nothing is left. */
    method Recv(c: char) returns (n: int, c': char)
      modifies this
      ensures old(input) == "" ==> n == 0 && c' == c && input == ""
      ensures old(input) != "" ==> n == 1 && c' == old(input)[0] && input == old(input)[1..]
    {
      if input == "" {
        n, c' := 0, c;
      } else {
        n, c', input := 1, input[0], input[1..];
      }
    }

    /** `recv(sock, &c, 1, MSG_PEEK)`. */
    method Peek(c: char) returns (n: int, c': char)
      ensures input == "" ==> n == 0 && c' == c
      ensures input != "" ==> n == 1 && c' == input[0]
    {
      if input == "" {
        n, c' := 0, c;
      } else {
        n, c' := 1, input[0];
      }
    }
  }

  // ------------------------------------------------------- the normalised stream

  /** How many raw bytes make up the first normalised byte. */
  function Width(s: string): nat
    requires s != ""
  {
    if s[0] == '\r' && |s| > 1 && s[1] == '\n' then 2 else 1
  }

  function Head(s: string): char
    requires s != ""
  {
    if s[0] == '\r' then '\n' else s[0]
  }

  /** The whole stream with every CRLF and every lone CR replaced by LF. */
  function Norm(s: string): string {
    if s == "" then "" else [Head(s)] + Norm(s[Width(s)..])
  }

  /** What one call yields when `room` bytes fit in front of the terminating NUL ... */
  function Line(s: string, room: nat): string {
    if room == 0 || s == "" then ""
    else if Head(s) == '\n' then "\n"
    else [Head(s)] + Line(s[Width(s)..], room - 1)
  }

  /** ... and what it leaves on the socket. */
  function AfterLine(s: string, room: nat): string {
    if room == 0 || s == "" then s
    else if Head(s) == '\n' then s[Width(s)..]
    else AfterLine(s[Width(s)..], room - 1)
  }

  function Room(maxLen: int): nat {
    if maxLen <= 0 then 0 else maxLen - 1
  }

  /** The inner branch of `get_line`: a CR, alone or with the LF behind it, becomes LF. */
  method FoldCR(sock: Socket, c: char) returns (c': char)
    modifies sock
    ensures c' == Head([c] + old(sock.input))
    ensures sock.input == ([c] + old(sock.input))[Width([c] + old(sock.input))..]
  {
    c' := c;
    if c == '\r' {
      var n;
      n, c' := sock.Peek(c);
      if n > 0 && c' == '\n' {
        n, c' := sock.Recv(c');
      } else {
        c' := '\n';
      }
    }
  }

  /** `get_line`. */
  method GetLine(sock: Socket, buf: array?<char>, maxLen: int) returns (i: int)
    requires buf != null && maxLen >= 0 ==> buf.Length >= 1 && buf.Length >= maxLen
    modifies sock, buf
    ensures buf == null || maxLen < 0 ==>
              i == 0 && sock.input == old(sock.input) && (buf != null ==> buf[..] == old(buf[..]))
    ensures buf != null && maxLen >= 0 ==>
              && i == |Line(old(sock.input), Room(maxLen))| < buf.Length
              && buf[..i] == Line(old(sock.input), Room(maxLen))
              && buf[i] == NUL
              && buf[i + 1..] == old(buf[i + 1..])
              && sock.input == AfterLine(old(sock.input), Room(maxLen))
  {
    if buf == null || maxLen < 0 {
      return 0;
    }
    i := 0;
    var n := 0;
    var c := NUL;
    ghost var whole, room, out := sock.input, Room(maxLen), "";
    while i < maxLen - 1 && c != '\n'
      invariant i == |out| <= room
      invariant |sock.input| <= |whole|
      invariant c != '\n' ==> Pending(whole, room, out, sock.input)
      invariant c == '\n' ==> Line(whole, room) == out && AfterLine(whole, room) == sock.input
      invariant forall k :: 0 <= k < i ==> buf[k] == out[k]
      invariant forall k :: i <= k < buf.Length ==> buf[k] == old(buf[k])
      decreases |sock.input|, if c != '\n' then 1 else 0
    {
      ghost var before := sock.input;
      n, c := sock.Recv(c);
      if n > 0 {
        c := FoldCR(sock, c);
        ExtendPending(whole, room, out, before);
        buf[i], i, out := c, i + 1, out + [c];
      } else {
        c := '\n';
      }
    }
    buf[i] := NUL;
    assert buf[..i] == out;
  }

  /** After `out`, the rest of the current line is still `Line` of what the socket holds. */
  ghost predicate Pending(whole: string, room: nat, out: string, rest: string) {
    && |out| <= room
    && Line(whole, room) == out + Line(rest, room - |out|)
    && AfterLine(whole, room) == AfterLine(rest, room - |out|)
  }

  lemma ExtendPending(whole: string, room: nat, out: string, rest: string)
    requires Pending(whole, room, out, rest) && |out| < room && rest != ""
    ensures [rest[0]] + rest[1..] == rest
    ensures var c := Head(rest);
            if c == '\n' then Line(whole, room) == out + [c] && AfterLine(whole, room) == rest[Width(rest)..]
            else Pending(whole, room, out + [c], rest[Width(rest)..])
  {
    var c, rest' := Head(rest), rest[Width(rest)..];
    if c != '\n' {
      assert room - |out + [c]| == room - |out| - 1;
      assert out + ([c] + Line(rest', room - |out| - 1)) == out + [c] + Line(rest', room - |out| - 1);
    }
  }

  // ------------------------------------------------- get_line against Norm

  /** A piece has LF only as its last byte. */
  predicate IsPiece(p: string) {
    forall k :: 0 <= k < |p| - 1 ==> p[k] != '\n'
  }

  /** Each call cuts the normalised stream in two: every byte is in the output or still to come. */
  lemma {:induction false} LineSplitsNorm(s: string, room: nat)
    ensures Norm(s) == Line(s, room) + Norm(AfterLine(s, room))
    ensures |AfterLine(s, room)| <= |s|
    ensures Line(s, room) != "" ==> |AfterLine(s, room)| < |s|
    ensures Line(s, room) == "" ==> room == 0 || s == ""
    decreases room
  {
    if room != 0 && s != "" && Head(s) != '\n' {
      LineSplitsNorm(s[Width(s)..], room - 1);
    }
  }

  lemma {:induction false} NormHasNoCR(s: string)
    ensures '\r' !in Norm(s)
    decreases |s|
  {
    if s != "" { NormHasNoCR(s[Width(s)..]); }
  }

  lemma {:induction false} NormOfNoCR(s: string)
    requires '\r' !in s
    ensures Norm(s) == s
    decreases |s|
  {
    if s != "" { NormOfNoCR(s[1..]); }
  }

  lemma NormOfEol(eol: string, b: string)
    requires eol == "\n" || eol == "\r\n" || (eol == "\r" && (b == "" || b[0] != '\n'))
    ensures Norm(eol + b) == "\n" + Norm(b)
  {
    var s := eol + b;
    assert s[Width(s)..] == b;
  }

  lemma NormOfByte(c: char, s: string)
    requires c != '\r'
    ensures Norm([c] + s) == [c] + Norm(s)
  {
    assert ([c] + s)[1..] == s;
  }

  /** What normalising does to each line end. Text without CR it leaves alone. */
  lemma {:induction false} NormFolds(a: string, eol: string, b: string)
    requires '\r' !in a
    requires eol == "\n" || eol == "\r\n" || (eol == "\r" && (b == "" || b[0] != '\n'))
    ensures Norm(a + (eol + b)) == a + ("\n" + Norm(b))
    decreases |a|
  {
    if a == "" {
      assert a + (eol + b) == eol + b;
      NormOfEol(eol, b);
    } else {
      assert a + (eol + b) == [a[0]] + (a[1..] + (eol + b));
      NormOfByte(a[0], a[1..] + (eol + b));
      NormFolds(a[1..], eol, b);
      assert [a[0]] + (a[1..] + ("\n" + Norm(b))) == a + ("\n" + Norm(b));
    }
  }

  lemma {:induction false} NormIdempotent(s: string)
    ensures Norm(Norm(s)) == Norm(s)
  {
    NormHasNoCR(s);
    NormOfNoCR(Norm(s));
  }

  lemma {:induction false} LineIsMaximalPiece(s: string, room: nat)
    ensures var p := Line(s, room);
            && IsPiece(p) && |p| <= room && '\r' !in p
            && (|p| == room || p == Norm(s) || (p != "" && p[|p| - 1] == '\n'))
    decreases room
  {
    if room != 0 && s != "" && Head(s) != '\n' {
      LineIsMaximalPiece(s[Width(s)..], room - 1);
    }
  }

  /** `get_line` returns the longest piece of at most `room` bytes that starts the normalised
      stream, and that property determines it. */
  lemma GetLineRefinesNorm(s: string, room: nat, p: string)
    ensures p == Line(s, room) <==>
            && p <= Norm(s) && IsPiece(p) && |p| <= room
            && forall q: string :: q <= Norm(s) && IsPiece(q) && |q| <= room ==> |q| <= |p|
  {
    var l, t := Line(s, room), Norm(s);
    LineSplitsNorm(s, room);
    LineIsMaximalPiece(s, room);
    forall q: string | q <= t && IsPiece(q) && |q| <= room
      ensures |q| <= |l|
    {
      if l != "" && l[|l| - 1] == '\n' && |l| <= |q| {
        assert q[|l| - 1] == t[|l| - 1] == '\n';
      }
    }
    if p <= t && IsPiece(p) && |p| <= room && (forall q: string :: q <= t && IsPiece(q) && |q| <= room ==> |q| <= |p|) {
      assert l <= t;
      assert |p| == |l|;
      assert p == t[..|p|] == l;
    }
  }

  /** Repeated calls with any buffer sizes; the k-th call uses rooms[k]. */
  function Lines(s: string, rooms: seq<nat>): seq<string>
    decreases |rooms|
  {
    if rooms == [] then [] else [Line(s, rooms[0])] + Lines(AfterLine(s, rooms[0]), rooms[1..])
  }

  function Leftover(s: string, rooms: seq<nat>): string
    decreases |rooms|
  {
    if rooms == [] then s else Leftover(AfterLine(s, rooms[0]), rooms[1..])
  }

  function Concat(parts: seq<string>): string {
    if parts == [] then "" else parts[0] + Concat(parts[1..])
  }

  lemma {:induction false} LinesSplitNorm(s: string, rooms: seq<nat>)
    ensures |Lines(s, rooms)| == |rooms|
    ensures Norm(s) == Concat(Lines(s, rooms)) + Norm(Leftover(s, rooms))
    ensures rooms != [] && rooms[|rooms| - 1] > 0 && Lines(s, rooms)[|rooms| - 1] == "" ==> Leftover(s, rooms) == ""
    decreases |rooms|
  {
    if rooms != [] {
      LineSplitsNorm(s, rooms[0]);
      LinesSplitNorm(AfterLine(s, rooms[0]), rooms[1..]);
      var a, b, c := Line(s, rooms[0]), Concat(Lines(AfterLine(s, rooms[0]), rooms[1..])), Norm(Leftover(s, rooms));
      assert a + (b + c) == (a + b) + c;
      if |rooms| == 1 {
        assert Leftover(s, rooms) == AfterLine(s, rooms[0]);
      }
    }
  }

  /** Reading until a call returns 0 yields exactly the normalised stream, so the result does not
      depend on the buffer sizes chosen for the calls (each at least 2). */
  lemma {:induction false} BufferSizesDoNotMatter(s: string, rooms: seq<nat>, rooms': seq<nat>)
    requires forall k :: 0 <= k < |rooms| ==> rooms[k] >= 1
    requires forall k :: 0 <= k < |rooms'| ==> rooms'[k] >= 1
    requires |Lines(s, rooms)| > 0 && Lines(s, rooms)[|Lines(s, rooms)| - 1] == ""
    requires |Lines(s, rooms')| > 0 && Lines(s, rooms')[|Lines(s, rooms')| - 1] == ""
    ensures Concat(Lines(s, rooms)) == Norm(s) == Concat(Lines(s, rooms'))
  {
    LinesSplitNorm(s, rooms);
    LinesSplitNorm(s, rooms');
  }

  lemma {:induction false} LineOfText(text: string, eol: string, x: string, room: nat)
    requires '\r' !in text && '\n' !in text
    requires eol == "\n" || eol == "\r\n"
    requires |text| < room
    ensures Line(text + eol + x, room) == text + "\n"
    ensures AfterLine(text + eol + x, room) == x
    decreases |text|
  {
    var s := text + eol + x;
    if text == "" {
      assert s == eol + x;
      assert s[Width(s)..] == x;
    } else {
      assert s[Width(s)..] == text[1..] + eol + x;
      LineOfText(text[1..], eol, x, room - 1);
      assert [text[0]] + (text[1..] + "\n") == text + "\n";
    }
  }
}
