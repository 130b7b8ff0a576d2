/** Decoding of posted forms: `&` and `=` become spaces in place, then `sscanf` keeps every second word. */
module Forms {
  import opened CText
  import opened RequestLine

  function Spaced(s: string): (r: string)
    ensures |r| == |s|
    ensures forall k :: 0 <= k < |s| ==> r[k] == if s[k] == '&' || s[k] == '=' then ' ' else s[k]
  {
    seq(|s|, k requires 0 <= k < |s| => if s[k] == '&' || s[k] == '=' then ' ' else s[k])
  }

  /** The loop that overwrites the separators, up to `strlen`. */
  method ReplaceSeparators(data: array<char>)
    requires NUL in data[..]
    modifies data
    ensures var u := CStr(old(data[..]));
            && CStr(data[..]) == Spaced(u) && data[|u|..] == old(data[..])[|u|..]
            && forall k :: 0 <= k < |u| ==> data[k] == if u[k] in "&=" then ' ' else u[k]
  {
    var i, len := 0, |CStr(data[..])|;
    ghost var s := data[..];
    while i < len
      invariant 0 <= i <= len
      invariant forall k :: 0 <= k < i ==> data[k] == if s[k] == '&' || s[k] == '=' then ' ' else s[k]
      invariant forall k :: i <= k < data.Length ==> data[k] == s[k]
    {
      if data[i] == '&' || data[i] == '=' {
        data[i] := ' ';
      }
      i := i + 1;
    }
    IndexIs(data[..], NUL, len);
  }

  /** The next word as `%s` reads it, and what is left behind it. */
  function Word(s: string): string {
    var t := SkipSpaces(s);
    Token(t, |t|)
  }

  function AfterWord(s: string): (r: string)
    ensures |r| <= |s|
    ensures Word(s) != "" ==> |r| < |s|
  {
    var t := SkipSpaces(s);
    TokenLength(t, |t|);
    t[|Token(t, |t|)|..]
  }

  /** `sscanf(s, "%*s%s" n times)`: the values converted before the first failure. */
  function ScanValues(s: string, n: nat): seq<string>
    decreases n
  {
    var r := AfterWord(s);
    if n == 0 || Word(s) == "" || Word(r) == "" then []
    else [Word(r)] + ScanValues(AfterWord(r), n - 1)
  }

  datatype Pair = Pair(key: string, value: string)

  /** A form token as a client may write it unescaped: any characters but blanks, `&`, `=` and NUL. */
  predicate Clean(t: string) {
    t != "" && forall k :: 0 <= k < |t| ==> !Blank(t[k]) && t[k] != '&' && t[k] != '=' && t[k] != '\0'
  }

  /** In particular every text of visible ASCII characters other than the two. */
  lemma VisibleIsClean(t: string)
    requires t != "" && forall k :: 0 <= k < |t| ==> '!' <= t[k] <= '~' && t[k] != '&' && t[k] != '='
    ensures Clean(t)
  {
  }

  function PrintPair(p: Pair): string {
    p.key + "=" + p.value
  }

  function PrintForm(ps: seq<Pair>): string
    decreases |ps|
  {
    if ps == [] then ""
    else if |ps| == 1 then PrintPair(ps[0])
    else PrintPair(ps[0]) + "&" + PrintForm(ps[1..])
  }

  function Values(ps: seq<Pair>): (vs: seq<string>)
    ensures |vs| == |ps| && forall k :: 0 <= k < |ps| ==> vs[k] == ps[k].value
  {
    seq(|ps|, k requires 0 <= k < |ps| => ps[k].value)
  }

  lemma WordOf(t: string, rest: string)
    requires t != "" && NoSpace(t)
    requires rest == "" || IsSpace(rest[0])
    ensures Word(t + rest) == t && AfterWord(t + rest) == rest
  {
    var s := t + rest;
    assert s[0] == t[0];
    if rest == "" {
      assert s == t;
      TokenToEnd(t, |t|);
    } else {
      TokenOfPrint(t, rest, |s|);
    }
  }

  lemma SpacedConcat(a: string, b: string)
    ensures Spaced(a + b) == Spaced(a) + Spaced(b)
  {
  }

  lemma SpacedClean(t: string)
    requires Clean(t)
    ensures Spaced(t) == t && NoSpace(t)
  {
  }

  lemma SpaceBefore(s: string)
    ensures Word(" " + s) == Word(s) && AfterWord(" " + s) == AfterWord(s)
  {
    assert (" " + s)[1..] == s;
  }

  /** All words of a text. */
  function Words(s: string): (ws: seq<string>)
    ensures forall k :: 0 <= k < |ws| ==> ws[k] != "" && NoSpace(ws[k])
    decreases |s|
  {
    WordIsWord(s);
    if Word(s) == "" then [] else [Word(s)] + Words(AfterWord(s))
  }

  lemma WordIsWord(s: string)
    ensures NoSpace(Word(s))
  {
    TokenHasNoSpace(SkipSpaces(s), |SkipSpaces(s)|);
  }

  lemma {:induction false} TokenHasNoSpace(s: string, room: nat)
    ensures NoSpace(Token(s, room))
    decreases room
  {
    if room != 0 && s != "" && !IsSpace(s[0]) { TokenHasNoSpace(s[1..], room - 1); }
  }

  /** The second, fourth, ... word, at most `n` of them. */
  function SecondWords(ws: seq<string>, n: nat): (vs: seq<string>)
    ensures |vs| == if n < |ws| / 2 then n else |ws| / 2
    ensures forall k :: 0 <= k < |vs| ==> vs[k] == ws[2 * k + 1]
    decreases n
  {
    if n == 0 || |ws| < 2 then [] else [ws[1]] + SecondWords(ws[2..], n - 1)
  }

  /** The scan, on any text, takes every second word. */
  lemma {:induction false} ScanTakesSecondWords(s: string, n: nat)
    ensures ScanValues(s, n) == SecondWords(Words(s), n)
    decreases n
  {
    var r := AfterWord(s);
    if n > 0 && Word(s) != "" && Word(r) != "" {
      ScanTakesSecondWords(AfterWord(r), n - 1);
      assert Words(s) == [Word(s)] + ([Word(r)] + Words(AfterWord(r)));
      assert Words(s)[2..] == Words(AfterWord(r));
    }
  }

  lemma WordsOf(t: string, rest: string)
    requires t != "" && NoSpace(t) && (rest == "" || IsSpace(rest[0]))
    ensures Words(t + rest) == [t] + Words(rest)
  {
    WordOf(t, rest);
  }

  lemma WordsBehindSpace(s: string)
    ensures Words(" " + s) == Words(s)
  {
    SpaceBefore(s);
  }

  function SpacedTail(ps: seq<Pair>): string
    requires ps != []
  {
    if |ps| == 1 then "" else " " + Spaced(PrintForm(ps[1..]))
  }

  lemma FormSplits(ps: seq<Pair>)
    requires ps != []
    ensures Spaced(PrintForm(ps)) == Spaced(PrintPair(ps[0])) + SpacedTail(ps)
  {
    if |ps| > 1 {
      SpacedConcat(PrintPair(ps[0]) + "&", PrintForm(ps[1..]));
      SpacedConcat(PrintPair(ps[0]), "&");
    }
  }

  /** What a pair leaves in the spaced form: its key, and its value unless that is empty. */
  function PairWords(p: Pair): seq<string> {
    if p.value == "" then [p.key] else [p.key, p.value]
  }

  function FormWords(ps: seq<Pair>): seq<string> {
    if ps == [] then [] else PairWords(ps[0]) + FormWords(ps[1..])
  }

  /** A pair as a browser posts it: the value may have been left blank. */
  predicate PostedPair(p: Pair) {
    Clean(p.key) && (p.value == "" || Clean(p.value))
  }

  lemma PairStep(p: Pair, rest: string)
    requires PostedPair(p) && (rest == "" || IsSpace(rest[0]))
    ensures Words(Spaced(PrintPair(p)) + rest) == PairWords(p) + Words(rest)
  {
    var s := Spaced(PrintPair(p)) + rest;
    SpacedClean(p.key);
    SpacedConcat(p.key + "=", p.value);
    SpacedConcat(p.key, "=");
    if p.value == "" {
      assert s == p.key + (" " + rest);
      WordsOf(p.key, " " + rest);
      WordsBehindSpace(rest);
    } else {
      SpacedClean(p.value);
      assert s == p.key + (" " + (p.value + rest));
      WordsOf(p.key, " " + (p.value + rest));
      WordsBehindSpace(p.value + rest);
      WordsOf(p.value, rest);
    }
  }

  /** The words of a spaced form, blank values leaving nothing behind. */
  lemma {:induction false} FormHasWords(ps: seq<Pair>)
    requires forall k :: 0 <= k < |ps| ==> PostedPair(ps[k])
    ensures Words(Spaced(PrintForm(ps))) == FormWords(ps)
    decreases |ps|
  {
    if ps != [] {
      FormSplits(ps);
      PairStep(ps[0], SpacedTail(ps));
      FormHasWords(ps[1..]);
      if |ps| == 1 {
        assert Spaced(PrintForm(ps[1..])) == "";
      } else {
        WordsBehindSpace(Spaced(PrintForm(ps[1..])));
      }
    }
  }

  /** As long as no value is blank, the words come in pairs. */
  lemma {:induction false} WordsInPairs(ps: seq<Pair>, m: nat)
    requires m <= |ps| && forall k :: 0 <= k < m ==> ps[k].value != ""
    ensures |FormWords(ps)| >= 2 * m
    ensures forall k :: 0 <= k < m ==> FormWords(ps)[2 * k + 1] == ps[k].value
    ensures FormWords(ps)[2 * m..] == FormWords(ps[m..])
    decreases m
  {
    if m > 0 {
      WordsInPairs(ps[1..], m - 1);
      var ws, rest := FormWords(ps), FormWords(ps[1..]);
      assert ws == [ps[0].key, ps[0].value] + rest;
      forall k | 0 <= k < m ensures ws[2 * k + 1] == ps[k].value {
        if k > 0 { assert ws[2 * k + 1] == rest[2 * (k - 1) + 1]; }
      }
      assert ws[2 * m..] == rest[2 * (m - 1)..];
      assert ps[1..][m - 1..] == ps[m..];
    } else {
      assert ps[0..] == ps && FormWords(ps)[0..] == FormWords(ps);
    }
  }

  function Fewer(n: nat, m: nat): nat {
    if n < m then n else m
  }

  lemma FilledValues(ps: seq<Pair>, n: nat)
    requires forall k :: 0 <= k < |ps| ==> PostedPair(ps[k])
    requires forall k :: 0 <= k < Fewer(n, |ps|) ==> ps[k].value != ""
    ensures ScanValues(Spaced(PrintForm(ps)), n) == Values(ps)[..Fewer(n, |ps|)]
  {
    var m := Fewer(n, |ps|);
    FormHasWords(ps);
    ScanTakesSecondWords(Spaced(PrintForm(ps)), n);
    WordsInPairs(ps, m);
    assert m == |ps| ==> FormWords(ps[m..]) == [];
    SecondWordsFront(FormWords(ps), n, Values(ps)[..m]);
  }

  /** Decoding a printed form gives back its values in order (all of them when at least as many
      conversions are asked for, the first `n` otherwise) if and only if none of them is blank. */
  lemma FormRoundTrip(ps: seq<Pair>, n: nat)
    requires forall k :: 0 <= k < |ps| ==> PostedPair(ps[k])
    ensures ScanValues(Spaced(PrintForm(ps)), n) == Values(ps)[..Fewer(n, |ps|)]
            <==> forall k :: 0 <= k < Fewer(n, |ps|) ==> ps[k].value != ""
  {
    var m, vs := Fewer(n, |ps|), ScanValues(Spaced(PrintForm(ps)), n);
    if forall k :: 0 <= k < m ==> ps[k].value != "" {
      FilledValues(ps, n);
    } else {
      var k :| 0 <= k < m && ps[k].value == "";
      assert Values(ps)[..m][k] == "";
      ScanTakesSecondWords(Spaced(PrintForm(ps)), n);
      assert "" !in vs;
    }
  }

  /** What is decoded instead: the first blank value is replaced by the next key, and if there is no
      next key the scan ends there. */
  lemma BlankValue(ps: seq<Pair>, n: nat, k: nat)
    requires forall i :: 0 <= i < |ps| ==> PostedPair(ps[i])
    requires k < |ps| && k < n && ps[k].value == "" && forall i :: 0 <= i < k ==> ps[i].value != ""
    ensures var vs := ScanValues(Spaced(PrintForm(ps)), n);
            && |vs| >= k && vs[..k] == Values(ps)[..k]
            && (k + 1 < |ps| ==> |vs| > k && vs[k] == ps[k + 1].key)
            && (k + 1 == |ps| ==> |vs| == k)
  {
    FormHasWords(ps);
    ScanTakesSecondWords(Spaced(PrintForm(ps)), n);
    WordsInPairs(ps, k);
    WordsFromBlank(ps, k);
    SecondWordsFront(FormWords(ps), n, Values(ps)[..k]);
  }

  lemma SecondWordsFront(ws: seq<string>, n: nat, vs: seq<string>)
    requires |vs| <= n && 2 * |vs| <= |ws| && forall i :: 0 <= i < |vs| ==> ws[2 * i + 1] == vs[i]
    ensures |SecondWords(ws, n)| >= |vs| && SecondWords(ws, n)[..|vs|] == vs
  {
  }

  lemma WordsFromBlank(ps: seq<Pair>, k: nat)
    requires k < |ps| && ps[k].value == ""
    requires 2 * k <= |FormWords(ps)| && FormWords(ps)[2 * k..] == FormWords(ps[k..])
    ensures var ws := FormWords(ps);
            && (k + 1 == |ps| ==> |ws| == 2 * k + 1)
            && (k + 1 < |ps| ==> |ws| > 2 * k + 1 && ws[2 * k + 1] == ps[k + 1].key)
  {
    var rest := FormWords(ps[k..]);
    assert ps[k..][1..] == ps[k + 1..];
    assert rest == [ps[k].key] + FormWords(ps[k + 1..]);
    assert k + 1 < |ps| ==> rest[1] == ps[k + 1].key;
  }

  lemma {:induction false} FormHasNoNul(ps: seq<Pair>)
    requires forall k :: 0 <= k < |ps| ==> PostedPair(ps[k])
    ensures NUL !in PrintForm(ps)
    decreases |ps|
  {
    if |ps| > 0 { FormHasNoNul(ps[1..]); }
  }
}
