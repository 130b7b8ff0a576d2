/** The two optimised versions of `skip_trailing_space`, against the loop that looks at one byte at a time. */
module TrailingSpace {
  import opened ByteOrder
  import opened Multiples

  const SPACE: byte := 0x20

  /** The length of `s` without its trailing spaces: the byte-by-byte loop. */
  function TrimmedLength(s: seq<byte>): nat {
    if s != [] && s[|s| - 1] == SPACE then TrimmedLength(s[..|s| - 1]) else |s|
  }

  predicate AllSpaces(s: seq<byte>) {
    forall k :: 0 <= k < |s| ==> s[k] == SPACE
  }

  predicate SpacesFrom(s: seq<byte>, n: nat) {
    n <= |s| && forall k :: n <= k < |s| ==> s[k] == SPACE
  }

  /** What the loop finds: the position behind the last byte that is not a space. */
  lemma {:induction false} TrimmedLengthIs(s: seq<byte>, n: nat)
    ensures n == TrimmedLength(s)
            <==> n <= |s| && (forall k :: n <= k < |s| ==> s[k] == 0x20) && (n > 0 ==> s[n - 1] != 0x20)
    decreases |s|
  {
    if s != [] && s[|s| - 1] == SPACE {
      var t := s[..|s| - 1];
      TrimmedLengthIs(t, n);
      TrimShrinks(t);
    }
  }

  lemma {:induction false} TrimShrinks(s: seq<byte>)
    ensures TrimmedLength(s) <= |s|
  {
    if s != [] { TrimShrinks(s[..|s| - 1]); }
  }

  // ------------------------------------------------------------ words of spaces

  function Spaces(n: nat): (s: seq<byte>)
    ensures |s| == n && AllSpaces(s)
  {
    seq(n, _ => SPACE)
  }

  lemma SpacesAre(s: seq<byte>)
    ensures AllSpaces(s) <==> s == Spaces(|s|)
  {
  }

  const SPACE_INT4: nat := 0x2020_2020
  const SPACE_INT8: nat := 0x2020_2020_2020_2020

  lemma SpaceWords()
    ensures FromLE(Spaces(4)) == SPACE_INT4
    ensures FromLE(Spaces(8)) == SPACE_INT8
  {
    var s := Spaces(8);
    Step4(s, 8);
    Step4(s[4..], 4);
    Step4(Spaces(4), 4);
    assert s[..8] == s && s[4..][..4] == s[4..] && Spaces(4)[..4] == Spaces(4);
    assert s[4..][4..][..0] == [] && Spaces(4)[4..][..0] == [];
  }

  /** Eight bytes load to the word of spaces exactly when each of them is a space. */
  lemma SpaceWord8(a: seq<byte>)
    requires |a| == 8
    ensures Uint8korr(a) == SPACE_INT8 <==> AllSpaces(a)
  {
    Load8(a);
    assert a[..8] == a;
    SpaceWords();
    SpacesAre(a);
    if Uint8korr(a) == SPACE_INT8 { LoadInjective(a, Spaces(8)); }
  }

  lemma WordBefore(s: seq<byte>, n: nat, w: nat)
    requires w <= n <= |s| && SpacesFrom(s, n)
    ensures AllSpaces(s[n - w..n]) ==> SpacesFrom(s, n - w)
  {
    var a := s[n - w..n];
    assert forall k :: n - w <= k < n ==> s[k] == a[k - (n - w)];
  }

  /** The version used everywhere but on SPARC; positions are relative to `ptr`. */
  method SkipTrailingSpace(s: seq<byte>) returns (end: nat)
    ensures end == TrimmedLength(s)
  {
    end := |s|;
    while end >= 8
      invariant end <= |s| && SpacesFrom(s, end)
    {
      SpaceWord8(s[end - 8..end]);
      if Uint8korr(s[end - 8..end]) != SPACE_INT8 {
        break;
      }
      WordBefore(s, end, 8);
      end := end - 8;
    }
    end := SkipBytes(s, end, 0);
  }

  /** `while (end > stop && end[-1] == 0x20) end--`. */
  method SkipBytes(s: seq<byte>, start: nat, stop: nat) returns (end: nat)
    requires stop <= start <= |s| && SpacesFrom(s, start)
    ensures stop <= end <= start && SpacesFrom(s, end)
    ensures end > stop ==> s[end - 1] != SPACE
    ensures stop == 0 ==> end == TrimmedLength(s)
  {
    end := start;
    while end > stop && s[end - 1] == SPACE
      invariant stop <= end <= start && SpacesFrom(s, end)
    {
      end := end - 1;
    }
    TrimmedLengthIs(s, end);
  }

  // ------------------------------------------------------- the aligned version

  function Reversed(s: seq<byte>): (r: seq<byte>)
    ensures |r| == |s| && forall k :: 0 <= k < |s| ==> r[k] == s[|s| - 1 - k]
  {
    seq(|s|, k requires 0 <= k < |s| => s[|s| - 1 - k])
  }

  /** An aligned load of one machine word, in either byte order. */
  function LoadWord(a: seq<byte>, bigEndian: bool): nat {
    FromLE(if bigEndian then Reversed(a) else a)
  }

  function SpaceInt(w: nat): nat {
    if w == 4 then SPACE_INT4 else SPACE_INT8
  }

  lemma SpaceWord(a: seq<byte>, bigEndian: bool)
    requires |a| == 4 || |a| == 8
    ensures LoadWord(a, bigEndian) == SpaceInt(|a|) <==> AllSpaces(a)
  {
    var b := if bigEndian then Reversed(a) else a;
    SpaceWords();
    SpacesAre(b);
    if AllSpaces(b) {
      forall k | 0 <= k < |a| ensures a[k] == SPACE {
        assert bigEndian ==> a[k] == b[|a| - 1 - k];
      }
    }
    if LoadWord(a, bigEndian) == SpaceInt(|a|) { LoadInjective(b, Spaces(|a|)); }
  }

  /** Rounding an address down to a multiple of the word size. */
  method RoundDown(x: nat, w: nat) returns (r: nat)
    requires w > 0
    ensures r <= x < r + w && IsMultiple(r, w)
  {
    r := x / w * w;
    ProductIsMultiple(x / w, w);
  }

  /** The SPARC version: `s` lies at address `ptr`, in a 64-bit address space. Bytes down to a word
      boundary, then aligned words, then bytes again. */
  method SkipTrailingSpaceAligned(s: seq<byte>, ptr: nat, w: nat, bigEndian: bool) returns (r: nat)
    requires w == 4 || w == 8
    requires ptr + |s| < TWO64
    ensures r == TrimmedLength(s)
  {
    var end := ptr + |s|;
    if |s| > 20 {
      var endWords := RoundDown(end, w);
      ModSmall(ptr + w - 1, TWO64);
      var startWords := RoundDown(U64(ptr + w - 1), w);
      assert endWords > ptr;
      assert startWords >= ptr;
      var n := SkipBytes(s, end - ptr, endWords - ptr);
      end := ptr + n;
      if s[end - 1 - ptr] == SPACE && startWords < endWords {
        n := SkipWords(s, ptr, end, startWords, w, bigEndian);
        end := ptr + n;
      }
    }
    r := SkipBytes(s, end - ptr, 0);
  }

  /** The word loop: every load is aligned and inside the string. */
  method SkipWords(s: seq<byte>, ptr: nat, start: nat, startWords: nat, w: nat, bigEndian: bool) returns (n: nat)
    requires w == 4 || w == 8
    requires ptr <= startWords < start <= ptr + |s| && IsMultiple(start, w) && IsMultiple(startWords, w)
    requires SpacesFrom(s, start - ptr)
    ensures n <= start - ptr && SpacesFrom(s, n)
  {
    var end := start;
    MultiplesApart(start, startWords, w);
    while end > startWords && LoadAt(s, ptr, end - w, w, bigEndian) == SpaceInt(w)
      invariant startWords <= end <= start && IsMultiple(end, w)
      invariant end > startWords ==> end - w >= startWords
      invariant SpacesFrom(s, end - ptr)
    {
      WordStep(s, end - ptr, w, bigEndian);
      end := end - w;
      if end > startWords { MultiplesApart(end, startWords, w); }
    }
    n := end - ptr;
  }

  lemma WordStep(s: seq<byte>, n: nat, w: nat, bigEndian: bool)
    requires (w == 4 || w == 8) && w <= n <= |s| && SpacesFrom(s, n)
    requires LoadWord(s[n - w..n], bigEndian) == SpaceInt(w)
    ensures SpacesFrom(s, n - w)
  {
    SpaceWord(s[n - w..n], bigEndian);
    WordBefore(s, n, w);
  }

  /** `((unsigned *) p)[0]`: only an aligned word that lies inside the string may be loaded. */
  function LoadAt(s: seq<byte>, ptr: nat, p: nat, w: nat, bigEndian: bool): nat
    requires w == 4 || w == 8
    requires ptr <= p && p + w <= ptr + |s| && IsMultiple(p, w)
  {
    LoadWord(s[p - ptr..p - ptr + w], bigEndian)
  }
}
