/** The slice of the C library the server and its CGI programs lean on: character classes,
    NUL-terminated strings, case-insensitive comparison, `atoi`, and decimal printing. */
module CText {

  const NUL: char := '\0'

  /** `isspace` in the C locale. */
  predicate IsSpace(c: char) {
    c == ' ' || 9 <= c as int <= 13
  }

  predicate IsDigit(c: char) {
    '0' <= c <= '9'
  }

  function DigitValue(c: char): nat
    requires IsDigit(c)
  {
    c as int - '0' as int
  }

  function Lower(c: char): char {
    if 'A' <= c <= 'Z' then (c as int + 32) as char else c
  }

  /** `strcasecmp(a, b) == 0`. */
  predicate SameIgnoringCase(a: string, b: string) {
    |a| == |b| && forall k :: 0 <= k < |a| ==> Lower(a[k]) == Lower(b[k])
  }

  /** The six blanks of ASCII. */
  predicate Blank(c: char) {
    c == ' ' || c == '\t' || c == '\n' || c == '\r' || c == '\U{000b}' || c == '\U{000c}'
  }

  lemma IsSpaceExact(c: char)
    ensures IsSpace(c) <==> Blank(c)
  {
  }

  /** The same character, or the same letter with its code 32 away. */
  predicate SameLetter(a: char, b: char) {
    || a == b
    || ('A' <= a <= 'Z' && b as int == a as int + 32)
    || ('A' <= b <= 'Z' && a as int == b as int + 32)
  }

  /** `text` is `word` in some letter case. */
  predicate Spells(text: string, word: string) {
    |text| == |word| && forall k :: 0 <= k < |text| ==> SameLetter(text[k], word[k])
  }

  /** What `strcasecmp` takes for equal. */
  lemma SameIgnoringCaseExact(a: string, b: string)
    ensures SameIgnoringCase(a, b) <==> Spells(a, b)
  {
    assert forall x: char, y: char :: Lower(x) == Lower(y) <==> SameLetter(x, y);
  }

  /** The first position of `c`, or the length if it does not occur. */
  function IndexOf(s: string, c: char): (k: nat)
    ensures k <= |s|
    ensures k < |s| ==> s[k] == c
    ensures forall j :: 0 <= j < k ==> s[j] != c
  {
    if s == "" || s[0] == c then 0 else 1 + IndexOf(s[1..], c)
  }

  lemma IndexIs(s: string, c: char, k: nat)
    requires k <= |s| && (k < |s| ==> s[k] == c) && forall j :: 0 <= j < k ==> s[j] != c
    ensures IndexOf(s, c) == k
  {
  }

  /** The C string stored at the start of a buffer: everything before the first NUL. */
  function CStr(s: string): string {
    s[..IndexOf(s, NUL)]
  }

  predicate OccursAt(s: string, sub: string, i: nat) {
    i + |sub| <= |s| && s[i..i + |sub|] == sub
  }

  /** `strstr(s, sub) != NULL`. */
  predicate Contains(s: string, sub: string) {
    exists i :: 0 <= i <= |s| && OccursAt(s, sub, i)
  }

  function Repeat(c: char, n: nat): (r: string)
    ensures |r| == n
    ensures forall k :: 0 <= k < n ==> r[k] == c
  {
    seq(n, _ => c)
  }

  /** The C string that starts at position `k` and ends at the NUL at `n`. */
  lemma CStrSlice(s: string, k: nat, n: nat)
    requires k <= n < |s| && s[n] == NUL && forall j :: k <= j < n ==> s[j] != NUL
    ensures CStr(s[k..]) == s[k..n]
  {
    IndexIs(s[k..], NUL, n - k);
  }

  lemma CStrOfPrefix(s: string, tail: string)
    requires NUL !in s
    requires tail == "" || tail[0] == NUL
    ensures CStr(s + tail) == s
  {
    IndexIs(s + tail, NUL, |s|);
  }

  // ---------------------------------------------------------------------- atoi

  function SkipSpaces(s: string): (r: string)
    ensures |r| <= |s|
  {
    if s != "" && IsSpace(s[0]) then SkipSpaces(s[1..]) else s
  }

  /** The number read off the leading digits of `s`, continuing from `acc`. */
  function ReadDigits(s: string, acc: nat): nat {
    if s != "" && IsDigit(s[0]) then ReadDigits(s[1..], acc * 10 + DigitValue(s[0])) else acc
  }

  function Strtol(s: string): int {
    var t := SkipSpaces(s);
    if t != "" && t[0] == '-' then
      var v: int := ReadDigits(t[1..], 0);
      -v
    else if t != "" && t[0] == '+' then ReadDigits(t[1..], 0)
    else ReadDigits(t, 0)
  }

  /** The ten digits and their values. */
  lemma DigitsExact(c: char)
    ensures IsDigit(c) <==> c in "0123456789"
    ensures forall k :: 0 <= k < 10 ==> IsDigit("0123456789"[k]) && DigitValue("0123456789"[k]) == k
  {
    var all := "0123456789";
    assert forall k :: 0 <= k < 10 ==> all[k] as int == '0' as int + k;
    if IsDigit(c) { assert c == all[c as int - '0' as int]; }
  }

  const TWO31: int := 0x8000_0000
  const TWO32: int := 0x1_0000_0000
  const TWO63: int := 0x8000_0000_0000_0000

  function Clamp64(x: int): int {
    if x < -TWO63 then -TWO63 else if x >= TWO63 then TWO63 - 1 else x
  }

  function ToInt32(x: int): int {
    var m := x % TWO32;
    if m < TWO31 then m else m - TWO32
  }

  /** `atoi` as the GNU library computes it: `strtol`, which saturates at 64 bits, cast to `int`. */
  function Atoi(s: string): int {
    ToInt32(Clamp64(Strtol(s)))
  }

  /** The cast to `int` keeps the value modulo 2^32 and lies in its range. */
  lemma ToInt32Exact(x: int)
    ensures -0x8000_0000 <= ToInt32(x) < 0x8000_0000 && (ToInt32(x) - x) % 0x1_0000_0000 == 0
  {
    var q, m := x / TWO32, x % TWO32;
    assert x == q * TWO32 + m;
    WholeTurns(ToInt32(x) - x, if m < TWO31 then -q else -q - 1);
  }

  lemma WholeTurns(d: int, q: int)
    requires d == q * TWO32
    ensures d % TWO32 == 0
  {
    var r := d % TWO32;
    assert (q - d / TWO32) * TWO32 == r;
  }

  predicate AllDigits(s: string) {
    forall k :: 0 <= k < |s| ==> IsDigit(s[k])
  }

  function Pow10(n: nat): nat {
    if n == 0 then 1 else 10 * Pow10(n - 1)
  }

  lemma {:induction false} Pow10Positive(n: nat)
    ensures Pow10(n) >= 1
  {
    if n > 0 { Pow10Positive(n - 1); }
  }

  lemma {:induction false} ReadDigitsSplit(a: string, b: string, acc: nat)
    requires AllDigits(a)
    ensures ReadDigits(a + b, acc) == ReadDigits(b, ReadDigits(a, acc))
  {
    if a == "" {
      assert a + b == b;
    } else {
      assert (a + b)[1..] == a[1..] + b;
      ReadDigitsSplit(a[1..], b, acc * 10 + DigitValue(a[0]));
    }
  }

  /** Positional value: an accumulator in front of `d` digits weighs 10^d. */
  lemma {:induction false} ReadDigitsWeight(s: string, acc: nat)
    requires AllDigits(s)
    ensures ReadDigits(s, acc) == acc * Pow10(|s|) + ReadDigits(s, 0)
    decreases |s|
  {
    if s != "" {
      var d := DigitValue(s[0]);
      ReadDigitsWeight(s[1..], acc * 10 + d);
      ReadDigitsWeight(s[1..], d);
      var p := Pow10(|s| - 1);
      assert (acc * 10 + d) * p == acc * (10 * p) + d * p;
    }
  }

  lemma PositiveProduct(d: nat, p: nat)
    requires p >= 1
    ensures d * p >= 0 && (d * p == 0 <==> d == 0)
  {
  }

  /** Dropping the first digit never raises the value, and keeps it exactly when that digit is 0. */
  lemma FirstDigitWeighs(digits: string)
    requires digits != "" && AllDigits(digits)
    ensures ReadDigits(digits[1..], 0) <= ReadDigits(digits, 0)
    ensures ReadDigits(digits[1..], 0) == ReadDigits(digits, 0) <==> digits[0] == '0'
  {
    var d, p := DigitValue(digits[0]), Pow10(|digits| - 1);
    ReadDigitsWeight(digits[1..], d);
    Pow10Positive(|digits| - 1);
    assert ReadDigits(digits, 0) == d * p + ReadDigits(digits[1..], 0);
    PositiveProduct(d, p);
  }

  function Dec(n: nat): (r: string)
    ensures r != "" && AllDigits(r)
  {
    if n < 10 then [('0' as int + n) as char]
    else Dec(n / 10) + [('0' as int + n % 10) as char]
  }

  lemma {:induction false} DecLength(n: nat, k: nat)
    requires k >= 1 && n < Pow10(k)
    ensures |Dec(n)| <= k
    decreases k
  {
    if n >= 10 {
      DecLength(n / 10, k - 1);
    }
  }

  lemma {:induction false} ReadDecimal(n: nat)
    ensures ReadDigits(Dec(n), 0) == n
  {
    if n >= 10 {
      var last := [('0' as int + n % 10) as char];
      ReadDigitsSplit(Dec(n / 10), last, 0);
      ReadDecimal(n / 10);
      assert last[1..] == "";
    } else {
      assert Dec(n)[1..] == "";
    }
  }

  lemma {:induction false} SkipSpacesRun(w: string, s: string)
    requires forall k :: 0 <= k < |w| ==> IsSpace(w[k])
    requires s == "" || !IsSpace(s[0])
    ensures SkipSpaces(w + s) == s
  {
    if w == "" {
      assert w + s == s;
    } else {
      assert (w + s)[1..] == w[1..] + s;
      SkipSpacesRun(w[1..], s);
    }
  }

  /** `atoi` on blanks, digits and a non-digit: the number, saturated at 64 bits and cut to an `int`. */
  lemma AtoiWraps(w: string, d: string, tail: string)
    requires forall k :: 0 <= k < |w| ==> IsSpace(w[k])
    requires AllDigits(d) && d != ""
    requires tail == "" || !IsDigit(tail[0])
    ensures Atoi(w + d + tail) == ToInt32(Clamp64(ReadDigits(d, 0)))
  {
    assert w + d + tail == w + (d + tail);
    assert (d + tail)[0] == d[0];
    SkipSpacesRun(w, d + tail);
    ReadDigitsSplit(d, tail, 0);
  }

  /** The same with a sign in front. */
  lemma AtoiSigned(w: string, sign: char, d: string, tail: string)
    requires forall k :: 0 <= k < |w| ==> Blank(w[k])
    requires AllDigits(d) && d != "" && (sign == '+' || sign == '-')
    requires tail == "" || !IsDigit(tail[0])
    ensures var n: int := ReadDigits(d, 0);
            Atoi(w + [sign] + d + tail) == ToInt32(Clamp64(if sign == '-' then -n else n))
  {
    var t := [sign] + d + tail;
    assert w + [sign] + d + tail == w + t;
    assert t[0] == sign && t[1..] == d + tail;
    SkipSpacesRun(w, t);
    ReadDigitsSplit(d, tail, 0);
  }

  /** It is the number itself when that fits an `int`. */
  lemma {:induction false} AtoiDigits(w: string, d: string, tail: string)
    requires forall k :: 0 <= k < |w| ==> IsSpace(w[k])
    requires AllDigits(d) && d != ""
    requires tail == "" || !IsDigit(tail[0])
    requires ReadDigits(d, 0) < TWO31
    ensures Atoi(w + d + tail) == ReadDigits(d, 0)
  {
    AtoiWraps(w, d, tail);
  }

  /** `atoi` inverts decimal printing for every non-negative `int`, whatever non-digit follows. */
  lemma AtoiDec(n: nat, tail: string)
    requires n < TWO31
    requires tail == "" || !IsDigit(tail[0])
    ensures Atoi(Dec(n) + tail) == n
  {
    ReadDecimal(n);
    AtoiDigits("", Dec(n), tail);
    assert "" + Dec(n) + tail == Dec(n) + tail;
  }

  /** `printf("%d", n)`. */
  function PrintInt(n: int): string {
    if n < 0 then "-" + Dec(-n) else Dec(n)
  }

  lemma StrtolNegative(d: string, tail: string)
    requires AllDigits(d) && (tail == "" || !IsDigit(tail[0]))
    ensures Strtol("-" + d + tail) == -(ReadDigits(d, 0) as int)
  {
    var s := "-" + d + tail;
    assert s[0] == '-' && s[1..] == d + tail;
    ReadDigitsSplit(d, tail, 0);
  }

  /** `atoi` inverts it on every `int`. */
  lemma AtoiPrintInt(n: int, tail: string)
    requires -TWO31 <= n < TWO31
    requires tail == "" || !IsDigit(tail[0])
    ensures Atoi(PrintInt(n) + tail) == n
  {
    if n >= 0 {
      AtoiDec(n, tail);
    } else {
      StrtolNegative(Dec(-n), tail);
      ReadDecimal(-n);
      assert "-" + Dec(-n) + tail == PrintInt(n) + tail;
    }
  }

  lemma {:induction false} ReadDigitsStopsAtNul(s: string, tail: string, acc: nat)
    requires tail == "" || tail[0] == NUL
    ensures ReadDigits(s + tail, acc) == ReadDigits(s, acc)
  {
    if s == "" {
      assert s + tail == tail;
    } else {
      assert (s + tail)[1..] == s[1..] + tail;
      if IsDigit(s[0]) {
        ReadDigitsStopsAtNul(s[1..], tail, acc * 10 + DigitValue(s[0]));
      }
    }
  }

  /** What follows a NUL in the buffer is invisible to `atoi`. */
  lemma {:induction false} AtoiStopsAtNul(s: string, tail: string)
    requires tail == "" || tail[0] == NUL
    ensures Atoi(s + tail) == Atoi(s)
    decreases |s|
  {
    if s == "" {
      assert s + tail == tail;
    } else if IsSpace(s[0]) {
      assert (s + tail)[1..] == s[1..] + tail;
      AtoiStopsAtNul(s[1..], tail);
    } else {
      assert (s + tail)[1..] == s[1..] + tail;
      ReadDigitsStopsAtNul(s, tail, 0);
      ReadDigitsStopsAtNul(s[1..], tail, 0);
    }
  }
}
