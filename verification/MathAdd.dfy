/** `math_add`: splitting a two-field form in one scan and adding the two numbers. */
module MathAdd {
  import opened CText
  import opened Forms

  /** The positions of the first and the second `=`, the length if there is none. */
  function FirstEq(u: string): nat {
    IndexOf(u, '=')
  }

  function SecondEq(u: string): nat {
    var e := FirstEq(u);
    if e == |u| then |u| else e + 1 + IndexOf(u[e + 1..], '=')
  }

  /** `e1` and `e2` are the first two positions of `=`. */
  ghost predicate EqsAt(u: string, e1: nat, e2: nat) {
    e1 < e2 < |u| && u[e1] == '=' && u[e2] == '=' && forall k :: 0 <= k < e2 && u[k] == '=' ==> k == e1
  }

  lemma EqsAreAt(u: string, e1: nat, e2: nat)
    ensures EqsAt(u, e1, e2) <==> e1 == FirstEq(u) && e2 == SecondEq(u) < |u|
  {
    if EqsAt(u, e1, e2) {
      IndexIs(u, '=', e1);
      IndexIs(u[e1 + 1..], '=', e2 - e1 - 1);
    }
    if e1 == FirstEq(u) && e2 == SecondEq(u) < |u| {
      assert u[e1 + 1..][e2 - e1 - 1] == '=';
      forall k | e1 < k < e2 ensures u[k] != '=' {
        assert u[k] == u[e1 + 1..][k - e1 - 1];
      }
    }
  }

  /** The text after the scan: every `&` in front of position `n` has become a NUL. */
  function Cut(u: string, n: nat): (r: string)
    ensures |r| == |u|
    ensures forall k :: 0 <= k < |u| ==> r[k] == if k < n && u[k] == '&' then NUL else u[k]
  {
    seq(|u|, k requires 0 <= k < |u| => if k < n && u[k] == '&' then NUL else u[k])
  }

  /** The two texts `atoi` is given. */
  function FirstNumber(u: string): string
    requires SecondEq(u) < |u|
  {
    CStr(Cut(u, SecondEq(u))[FirstEq(u) + 1..])
  }

  function SecondNumber(u: string): string
    requires SecondEq(u) < |u|
  {
    u[SecondEq(u) + 1..]
  }

  function IntSum(u: string): int
    requires SecondEq(u) < |u|
  {
    Atoi(FirstNumber(u)) + Atoi(SecondNumber(u))
  }

  /** The sum is an `int`. */
  predicate Addable(u: string)
    requires SecondEq(u) < |u|
  {
    -TWO31 <= IntSum(u) < TWO31
  }

  /** The scan: `data1` and `data2` end up behind the first two `=`, and every `&` in front of the
      second has become a NUL. */
  method Scan(data: array<char>, ghost e1: nat, ghost e2: nat) returns (data1: int, data2: int)
    requires e1 < e2 < data.Length && data[e1] == '=' && data[e2] == '='
    requires forall k :: 0 <= k < e2 ==> data[k] != NUL && (data[k] == '=' ==> k == e1)
    modifies data
    ensures data1 == e1 + 1 && data2 == e2 + 1
    ensures forall k :: 0 <= k < e2 ==> data[k] == CutAt(old(data[..]), k)
    ensures forall k :: e2 <= k < data.Length ==> data[k] == old(data[k])
  {
    var start := 0;
    data1, data2 := -1, -1;
    while data[start] != NUL
      invariant start <= e2
      invariant data1 == if start <= e1 then -1 else e1 + 1
      invariant data2 == -1
      invariant forall k :: 0 <= k < start ==> data[k] == CutAt(old(data[..]), k)
      invariant forall k :: start <= k < data.Length ==> data[k] == old(data[k])
      decreases e2 - start
    {
      if data[start] == '=' && data1 == -1 {
        data1 := start + 1;
        start := start + 1;
        continue;
      }
      if data[start] == '&' {
        data[start] := NUL;
      }
      if data[start] == '=' && data1 != -1 {
        data2 := start + 1;
        break;
      }
      start := start + 1;
    }
  }

  lemma EqsInBuffer(s: string, e1: nat, e2: nat)
    requires NUL in s && e1 == FirstEq(CStr(s)) && e2 == SecondEq(CStr(s)) < |CStr(s)|
    ensures e1 < e2 < |s| && s[e1] == '=' && s[e2] == '='
    ensures forall k :: 0 <= k < e2 ==> s[k] != NUL && (s[k] == '=' ==> k == e1)
  {
    var u := CStr(s);
    EqsAreAt(u, e1, e2);
    assert forall k :: 0 <= k < |u| ==> u[k] == s[k];
  }

  /** `math_add` up to the sum. The source dereferences both pointers, so its caller has to supply two
      fields; and the sum has to fit an `int`. */
  method AddForm(data: array<char>) returns (sum: int)
    requires NUL in data[..] && SecondEq(CStr(data[..])) < |CStr(data[..])|
    requires Addable(CStr(data[..]))
    modifies data
    ensures sum == IntSum(CStr(old(data[..])))
  {
    ghost var s := data[..];
    ghost var e1, e2 := FirstEq(CStr(s)), SecondEq(CStr(s));
    EqsInBuffer(s, e1, e2);
    var data1, data2 := Scan(data, e1, e2);
    ghost var d := data[..];
    SecondAfterScan(s, d, e2);
    FirstAfterScan(s, d, e1, e2);
    assert data[data1..] == d[e1 + 1..] && data[data2..] == d[e2 + 1..];
    sum := Atoi(CStr(data[data1..])) + Atoi(CStr(data[data2..]));
  }

  function CutAt(s: string, k: nat): char
    requires k < |s|
  {
    if s[k] == '&' then NUL else s[k]
  }

  lemma SecondAfterScan(s: string, d: string, e2: nat)
    requires NUL in s && |d| == |s| && e2 == SecondEq(CStr(s)) < |CStr(s)|
    requires forall k :: e2 <= k < |s| ==> d[k] == s[k]
    ensures CStr(d[e2 + 1..]) == SecondNumber(CStr(s))
  {
    CStrSlice(d, e2 + 1, IndexOf(s, NUL));
  }

  lemma FirstAfterScan(s: string, d: string, e1: nat, e2: nat)
    requires NUL in s && |d| == |s| && e1 == FirstEq(CStr(s)) && e2 == SecondEq(CStr(s)) < |CStr(s)|
    requires forall k :: 0 <= k < e2 ==> d[k] == CutAt(s, k)
    requires forall k :: e2 <= k < |s| ==> d[k] == s[k]
    ensures CStr(d[e1 + 1..]) == FirstNumber(CStr(s))
  {
    var u := CStr(s);
    CutIsScanned(s, u, d, e2);
    CutBehind(d, Cut(u, e2), e1 + 1);
  }

  lemma CutIsScanned(s: string, u: string, d: string, e2: nat)
    requires u <= s && |d| == |s| && e2 <= |u|
    requires forall k :: 0 <= k < e2 ==> d[k] == CutAt(s, k)
    requires forall k :: e2 <= k < |s| ==> d[k] == s[k]
    ensures Cut(u, e2) == d[..|u|]
  {
  }

  lemma CutBehind(d: string, cut: string, k: nat)
    requires k <= |cut| < |d| && cut == d[..|cut|] && d[|cut|] == NUL
    ensures CStr(d[k..]) == CStr(cut[k..])
  {
    BehindFirst(d, |cut|, k);
    NulBehind(d, cut[k..], k, IndexOf(cut[k..], NUL));
  }

  lemma BehindFirst(d: string, n: nat, k: nat)
    requires k <= n <= |d|
    ensures d[..n][k..] == d[k..k + (n - k)]
  {
  }

  lemma NulBehind(d: string, b: string, k: nat, m: nat)
    requires k + |b| < |d| && d[k..k + |b|] == b && d[k + |b|] == NUL && m == IndexOf(b, NUL)
    ensures CStr(d[k..]) == CStr(b)
  {
    assert forall j :: k <= j < k + m ==> d[j] == b[j - k];
    CStrSlice(d, k, k + m);
  }

  /** A printed two-field form adds up to the sum of its numbers, for all `int`s whose sum is one. */
  lemma AddRoundTrip(key1: string, a: int, key2: string, b: int)
    requires Clean(key1) && Clean(key2)
    requires -TWO31 <= a < TWO31 && -TWO31 <= b < TWO31
    ensures var u := PrintForm([Pair(key1, PrintInt(a)), Pair(key2, PrintInt(b))]);
            && NUL !in u && SecondEq(u) < |u|
            && FirstNumber(u) == PrintInt(a) && SecondNumber(u) == PrintInt(b)
            && IntSum(u) == a + b
  {
    NumberIsClean(a);
    NumberIsClean(b);
    TwoFields(key1, PrintInt(a), key2, PrintInt(b));
    ReadNumber(a);
    ReadNumber(b);
  }

  lemma TwoFields(key1: string, x: string, key2: string, y: string)
    requires Clean(key1) && Clean(key2) && Clean(x) && Clean(y)
    ensures var u := PrintForm([Pair(key1, x), Pair(key2, y)]);
            NUL !in u && SecondEq(u) < |u| && FirstNumber(u) == x && SecondNumber(u) == y
  {
    PrintTwo(Pair(key1, x), Pair(key2, y));
    SplitTwoFields(key1, x, key2, y);
    TwoHaveNoNul(Pair(key1, x), Pair(key2, y));
  }

  lemma TwoHaveNoNul(p: Pair, q: Pair)
    requires PostedPair(p) && PostedPair(q)
    ensures NUL !in PrintForm([p, q])
  {
    FormHasNoNul([p, q]);
  }

  lemma PrintTwo(p: Pair, q: Pair)
    ensures PrintForm([p, q]) == p.key + "=" + p.value + "&" + (q.key + "=" + q.value)
  {
    assert [p, q][1..] == [q];
    assert PrintForm([q]) == PrintPair(q);
  }

  lemma ReadNumber(n: int)
    requires -TWO31 <= n < TWO31
    ensures Atoi(PrintInt(n)) == n
  {
    AtoiPrintInt(n, "");
    assert PrintInt(n) + "" == PrintInt(n);
  }

  lemma NumberIsClean(n: int)
    ensures Clean(PrintInt(n))
  {
  }

  lemma SplitTwoFields(key1: string, x: string, key2: string, y: string)
    requires Clean(key1) && Clean(key2) && Clean(x) && Clean(y)
    ensures var u := key1 + "=" + x + "&" + (key2 + "=" + y);
            && SecondEq(u) < |u| && FirstNumber(u) == x && SecondNumber(u) == y
  {
    var u := key1 + "=" + x + "&" + (key2 + "=" + y);
    var e1, amp, e2 := |key1|, |key1| + 1 + |x|, |key1| + 1 + |x| + 1 + |key2|;
    EqsOfTwoFields(key1, x, key2, y);
    EqsAreAt(u, e1, e2);
    assert u[e2 + 1..] == y;
    FirstField(key1, x, key2 + "=" + y, e2);
  }

  /** Cut at its `&`, the text behind the first `=` is the first value. */
  lemma FirstField(key: string, x: string, rest: string, e2: nat)
    requires Clean(x) && |key| + 1 + |x| < e2 <= |key| + 1 + |x| + 1 + |rest|
    ensures CStr(Cut(key + "=" + x + "&" + rest, e2)[|key| + 1..]) == x
  {
    var c := Cut(key + "=" + x + "&" + rest, e2)[|key| + 1..];
    assert c[..|x|] == x && c[|x|] == NUL;
    IndexIs(c, NUL, |x|);
  }

  lemma EqsOfTwoFields(key1: string, x: string, key2: string, y: string)
    requires Clean(key1) && Clean(key2) && Clean(x) && Clean(y)
    ensures EqsAt(key1 + "=" + x + "&" + (key2 + "=" + y), |key1|, |key1| + 1 + |x| + 1 + |key2|)
  {
  }
}
