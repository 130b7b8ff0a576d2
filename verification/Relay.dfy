/** The body relay of `exe_cgi` and the read loop at the CGI program's end of the pipe. */
module Relay {
  import opened CText
  import opened LineReader

  /** What `n` rounds of recv-then-write put on the pipe: the bytes the socket still has, then copies
      of the last byte received (NUL if there was none), since a failed `recv` leaves `c` alone. */
  function RelayBytes(s: string, n: nat): (r: string)
    ensures |r| == n
  {
    if n <= |s| then s[..n] else s + Repeat(LastByte(s), n - |s|)
  }

  function LastByte(s: string): char {
    if s == "" then NUL else s[|s| - 1]
  }

  function AfterRelay(s: string, n: nat): string {
    if n <= |s| then s[n..] else ""
  }

  /** The value of `c` after `n` rounds. */
  function Carry(s: string, n: nat): char {
    if n == 0 then NUL else RelayBytes(s, n)[n - 1]
  }

  /** One more round sends one more byte of the same stream. */
  lemma RelayOneMore(s: string, n: nat)
    ensures var rest := AfterRelay(s, n);
            var c := if rest == "" then Carry(s, n) else rest[0];
            && RelayBytes(s, n + 1) == RelayBytes(s, n) + [c]
            && Carry(s, n + 1) == c
            && AfterRelay(s, n + 1) == (if rest == "" then "" else rest[1..])
  {
    if n < |s| {
      assert s[..n + 1] == s[..n] + [s[n]];
    } else if n == |s| {
      assert s[..n] == s;
    }
  }

  /** The relay loop: `written` is what went into the child's input pipe. */
  method RelayBody(sock: Socket, contentLength: int) returns (written: string)
    modifies sock
    ensures written == RelayBytes(old(sock.input), Rounds(contentLength))
    ensures sock.input == AfterRelay(old(sock.input), Rounds(contentLength))
  {
    var i, c := 0, NUL;
    written := "";
    ghost var s := sock.input;
    while i < contentLength
      invariant 0 <= i <= Rounds(contentLength)
      invariant written == RelayBytes(s, i) && sock.input == AfterRelay(s, i) && c == Carry(s, i)
    {
      RelayOneMore(s, i);
      var n;
      n, c := sock.Recv(c);
      written := written + [c];
      i := i + 1;
    }
  }

  function Rounds(contentLength: int): nat {
    if contentLength < 0 then 0 else contentLength
  }

  /** A body that is all there is relayed byte for byte and the socket is left just behind it. */
  lemma FullBody(body: string, tail: string)
    ensures RelayBytes(body + tail, |body|) == body
    ensures AfterRelay(body + tail, |body|) == tail
  {
  }

  /** The child's loop `read(0, &post_data[i], 1)` followed by the terminating NUL, for a body of
      exactly `contentLength` bytes. */
  method ReadPostData(pipe: Socket, postData: array<char>, contentLength: int)
    requires Rounds(contentLength) < postData.Length
    requires |pipe.input| >= Rounds(contentLength)
    modifies pipe, postData
    ensures var n := Rounds(contentLength);
            && postData[..n] == old(pipe.input)[..n] && postData[n] == NUL
            && postData[n + 1..] == old(postData[n + 1..])
            && pipe.input == old(pipe.input)[n..]
  {
    var i := 0;
    ghost var s := pipe.input;
    while i < contentLength
      invariant 0 <= i <= Rounds(contentLength)
      invariant forall k :: 0 <= k < i ==> postData[k] == s[k]
      invariant forall k :: i <= k < postData.Length ==> postData[k] == old(postData[k])
      invariant pipe.input == s[i..]
    {
      var n, c := pipe.Recv(postData[i]);
      postData[i] := c;
      i := i + 1;
    }
    postData[i] := NUL;
  }
}
