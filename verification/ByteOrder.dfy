/** The little-endian load (`korr`) and store functions for machines other than x86. */
module ByteOrder {

  type byte = b: int | 0 <= b < 256

  const TWO16: int := 0x1_0000
  const TWO24: int := 0x100_0000
  const TWO32: int := 0x1_0000_0000
  const TWO40: int := 0x100_0000_0000
  const TWO64: int := 0x1_0000_0000_0000_0000

  function U16(x: int): int { x % TWO16 }
  function U32(x: int): int { x % TWO32 }
  function U64(x: int): int { x % TWO64 }

  /** A cast to a signed type of modulus `m`. */
  function Signed(x: int, m: int): int
    requires m > 0
  {
    if x % m < m / 2 then x % m else x % m - m
  }

  function Int16(x: int): int { Signed(x, TWO16) }
  function Int32(x: int): int { Signed(x, TWO32) }
  function Int64(x: int): int { Signed(x, TWO64) }

  function Uchar(x: int): byte { x % 256 }

  /** Left and right shifts by whole bytes. */
  function Shl8(x: int): int { x * 0x100 }
  function Shl16(x: int): int { x * 0x1_0000 }
  function Shl24(x: int): int { x * 0x100_0000 }
  function Shl32(x: int): int { x * TWO32 }
  function Shl40(x: int): int { x * TWO40 }
  function Shr8(x: nat): nat { x / 0x100 }
  function Shr16(x: nat): nat { x / 0x1_0000 }
  function Shr24(x: nat): nat { x / 0x100_0000 }
  function Shr32(x: nat): nat { x / TWO32 }
  function Shr40(x: nat): nat { x / TWO40 }

  // --------------------------------------------------------- base 256

  function Pow256(k: nat): (p: nat)
    ensures p >= 1
  {
    if k == 0 then 1 else 256 * Pow256(k - 1)
  }

  function FromLE(s: seq<byte>): nat {
    if s == [] then 0 else s[0] + 256 * FromLE(s[1..])
  }

  function ToLE(v: nat, k: nat): (s: seq<byte>)
    ensures |s| == k
  {
    if k == 0 then [] else [v % 256] + ToLE(v / 256, k - 1)
  }

  lemma {:induction false} FromLEBound(s: seq<byte>)
    ensures FromLE(s) < Pow256(|s|)
  {
    if s != [] { FromLEBound(s[1..]); }
  }

  lemma DigitSplit(v: nat, p: nat)
    requires p >= 1
    ensures v % (256 * p) == v % 256 + 256 * (v / 256 % p)
  {
    var q, r := v / 256, v % 256;
    var a, b := q / p, q % p;
    assert q == a * p + b;
    assert v == 256 * (a * p + b) + r;
    assert v == a * (256 * p) + (256 * b + r) by {
      assert 256 * (a * p) == a * (256 * p);
    }
    assert 256 * b + r < 256 * p;
    ModUnique(v, 256 * p, a, 256 * b + r);
  }

  lemma ModUnique(v: int, m: int, q: int, r: int)
    requires m > 0 && 0 <= r < m && v == q * m + r
    ensures v % m == r && v / m == q
  {
    var d := v / m - q;
    assert v == (v / m) * m + v % m;
    assert d * m == r - v % m by { assert (v / m - q) * m == (v / m) * m - q * m; }
    MultipleGrows(d, m);
  }

  lemma ModSmall(x: nat, m: nat)
    requires x < m
    ensures x % m == x
  {
  }

  lemma MultipleGrows(d: int, m: int)
    requires m > 0
    ensures d >= 1 ==> d * m >= m
    ensures d <= -1 ==> d * m <= -m
  {
  }

  /** Loading what was stored gives the value modulo 256^k. */
  lemma {:induction false} StoreLoad(v: nat, k: nat)
    ensures FromLE(ToLE(v, k)) == v % Pow256(k)
  {
    if k > 0 {
      StoreLoad(v / 256, k - 1);
      DigitSplit(v, Pow256(k - 1));
    }
  }

  /** Storing what was loaded restores the bytes. */
  lemma {:induction false} LoadStore(s: seq<byte>)
    ensures ToLE(FromLE(s), |s|) == s
  {
    if s != [] {
      LoadStore(s[1..]);
      assert FromLE(s) / 256 == FromLE(s[1..]);
    }
  }

  /** Different byte strings of one length load to different values. */
  lemma {:induction false} LoadInjective(s: seq<byte>, t: seq<byte>)
    requires |s| == |t| && FromLE(s) == FromLE(t)
    ensures s == t
  {
    LoadStore(s);
    LoadStore(t);
  }

  // --------------------------------------------------- the loads as written

  function Uint2korr(a: seq<byte>): int
    requires |a| >= 2
  {
    U16(U16(a[0]) + Shl8(U16(a[1])))
  }

  function Uint3korr(a: seq<byte>): int
    requires |a| >= 3
  {
    U32(a[0] + U32(Shl8(a[1])) + U32(Shl16(a[2])))
  }

  function Uint4korr(a: seq<byte>): int
    requires |a| >= 4
  {
    U32(a[0] + U32(Shl8(a[1])) + U32(Shl16(a[2])) + U32(Shl24(a[3])))
  }

  function Uint5korr(a: seq<byte>): int
    requires |a| >= 5
  {
    U64(Uint4korr(a) + U64(Shl32(a[4])))
  }

  function Uint6korr(a: seq<byte>): int
    requires |a| >= 6
  {
    U64(Uint4korr(a) + U64(Shl32(a[4])) + U64(Shl40(a[5])))
  }

  function Uint8korr(a: seq<byte>): int
    requires |a| >= 8
  {
    U64(Uint4korr(a) + U64(Shl32(Uint4korr(a[4..]))))
  }

  function Sint2korr(a: seq<byte>): int
    requires |a| >= 2
  {
    Int16(a[0] + Shl8(a[1]))
  }

  function Sint3korr(a: seq<byte>): int
    requires |a| >= 3
  {
    Int32(if BitAnd(a[2], 128) != 0
          then Or4(U32(Shl24(255)), U32(Shl16(a[2])), U32(Shl8(a[1])), a[0])
          else Or3(U32(Shl16(a[2])), U32(Shl8(a[1])), a[0]))
  }

  function Or3(x: nat, y: nat, z: nat): nat {
    BitOr(BitOr(x, y), z)
  }

  function Or4(w: nat, x: nat, y: nat, z: nat): nat {
    Or3(BitOr(w, x), y, z)
  }

  function Sint4korr(a: seq<byte>): int
    requires |a| >= 4
  {
    Int32(a[0] + Int32(Shl8(a[1])) + Int32(Shl16(a[2])) + Int32(Shl24(a[3])))
  }

  function Sint8korr(a: seq<byte>): int
    requires |a| >= 8
  {
    Int64(Uint8korr(a))
  }

  // ------------------------------------------------------------ bitwise or, and

  function BitOr(a: nat, b: nat): nat
    decreases a + b
  {
    if a == 0 && b == 0 then 0
    else (if a % 2 == 1 || b % 2 == 1 then 1 else 0) + 2 * BitOr(a / 2, b / 2)
  }

  function BitAnd(a: nat, b: nat): nat
    decreases a
  {
    if a == 0 then 0 else (if a % 2 == 1 && b % 2 == 1 then 1 else 0) + 2 * BitAnd(a / 2, b / 2)
  }

  function Pow2(k: nat): (p: nat)
    ensures p >= 1
  {
    if k == 0 then 1 else 2 * Pow2(k - 1)
  }

  lemma {:induction false} OrZero(a: nat)
    ensures BitOr(a, 0) == a
  {
    if a > 0 { OrZero(a / 2); }
  }

  /** Or is addition when the low operand lies below the high one's lowest bit. */
  lemma {:induction false} OrDisjoint(a: nat, b: nat, k: nat)
    requires b < Pow2(k)
    ensures BitOr(a * Pow2(k), b) == a * Pow2(k) + b
    decreases k
  {
    if k == 0 {
      OrZero(a);
      assert a * 1 == a;
    } else {
      var h := a * Pow2(k - 1);
      assert a * Pow2(k) == 2 * h;
      OrDisjoint(a, b / 2, k - 1);
      assert (2 * h) / 2 == h && (2 * h) % 2 == 0;
    }
  }

  lemma {:induction false} AndZero(a: nat)
    ensures BitAnd(a, 0) == 0
  {
    if a > 0 { AndZero(a / 2); }
  }

  lemma HalveAnd(a: nat, b: nat)
    ensures BitAnd(a, 2 * b) == 2 * BitAnd(a / 2, b)
  {
    assert 2 * b / 2 == b && 2 * b % 2 == 0;
  }

  /** The sign test of `sint3korr`. */
  lemma TopBit(a: byte)
    ensures BitAnd(a, 128) != 0 <==> a >= 128
  {
    var x: nat := a;
    HalveAnd(x, 64);
    HalveAnd(x / 2, 32);
    HalveAnd(x / 2 / 2, 16);
    HalveAnd(x / 2 / 2 / 2, 8);
    HalveAnd(x / 2 / 2 / 2 / 2, 4);
    HalveAnd(x / 2 / 2 / 2 / 2 / 2, 2);
    HalveAnd(x / 2 / 2 / 2 / 2 / 2 / 2, 1);
    AndZero(0);
  }

  lemma Pow2Bytes()
    ensures Pow2(8) == 0x100 && Pow2(16) == 0x1_0000 && Pow2(24) == 0x100_0000
  {
    assert Pow2(4) == 16;
    assert Pow2(8) == 0x100;
    assert Pow2(12) == 0x1000;
    assert Pow2(16) == 0x1_0000;
    assert Pow2(20) == 0x10_0000;
  }

  // ------------------------------------------------- each load is base 256

  lemma Step(a: seq<byte>, n: nat)
    requires 1 <= n <= |a|
    ensures FromLE(a[..n]) == a[0] + Shl8(FromLE(a[1..][..n - 1]))
    ensures FromLE(a[..0]) == 0
  {
    assert a[..n][1..] == a[1..][..n - 1];
  }

  /** The first `n` bytes, read from the fifth on separately. */
  lemma Step4(a: seq<byte>, n: nat)
    requires 4 <= n <= |a|
    ensures FromLE(a[..n]) == a[0] + Shl8(a[1]) + Shl16(a[2]) + Shl24(a[3]) + Shl32(FromLE(a[4..][..n - 4]))
  {
    Step(a, n);
    Step(a[1..], n - 1);
    Step(a[2..], n - 2);
    Step(a[3..], n - 3);
    assert a[1..][1..] == a[2..] && a[2..][1..] == a[3..] && a[3..][1..] == a[4..];
  }

  lemma Load2(a: seq<byte>)
    requires |a| >= 2
    ensures Uint2korr(a) == FromLE(a[..2]) < TWO16
    ensures Sint2korr(a) == Int16(FromLE(a[..2]))
  {
    Step(a, 2);
    Step(a[1..], 1);
    assert a[1..][1..][..0] == [];
    ModSmall(a[0], TWO16);
    ModSmall(a[1], TWO16);
    ModSmall(a[0] + Shl8(a[1]), TWO16);
  }

  lemma Load3(a: seq<byte>)
    requires |a| >= 3
    ensures Uint3korr(a) == FromLE(a[..3]) < TWO24
    ensures FromLE(a[..3]) == a[0] + Shl8(a[1]) + Shl16(a[2])
  {
    Step(a, 3);
    Step(a[1..], 2);
    Step(a[2..], 1);
    assert a[1..][1..] == a[2..];
  }

  lemma FourBytes(a: seq<byte>)
    requires |a| >= 4
    ensures FromLE(a[..4]) == a[0] + Shl8(a[1]) + Shl16(a[2]) + Shl24(a[3]) < TWO32
  {
    Step4(a, 4);
    assert a[4..][..0] == [];
  }

  lemma Load4(a: seq<byte>)
    requires |a| >= 4
    ensures Uint4korr(a) == FromLE(a[..4]) < TWO32
    ensures Sint4korr(a) == Int32(FromLE(a[..4]))
  {
    FourBytes(a);
    U32Bytes(a[1]);
    U32Bytes(a[2]);
    U32Bytes(a[3]);
    ModSmall(FromLE(a[..4]), TWO32);
    Int32Bytes(a[1]);
    Int32Bytes(a[2]);
    Int32Bytes(a[3]);
    if a[3] >= 128 {
      ModUnique(FromLE(a[..4]) - TWO32, TWO32, -1, FromLE(a[..4]));
    }
  }

  lemma U32Bytes(b: byte)
    ensures U32(Shl8(b)) == Shl8(b) && U32(Shl16(b)) == Shl16(b) && U32(Shl24(b)) == Shl24(b)
  {
    ModSmall(Shl8(b), TWO32);
    ModSmall(Shl16(b), TWO32);
    ModSmall(Shl24(b), TWO32);
  }

  lemma Int32Bytes(b: byte)
    ensures Int32(Shl8(b)) == Shl8(b) && Int32(Shl16(b)) == Shl16(b)
    ensures Int32(Shl24(b)) == if b >= 128 then Shl24(b) - TWO32 else Shl24(b)
  {
    U32Bytes(b);
  }

  lemma Load5(a: seq<byte>)
    requires |a| >= 5
    ensures Uint5korr(a) == FromLE(a[..5]) < TWO40
  {
    Load4(a);
    FourBytes(a);
    Step4(a, 5);
    Step(a[4..], 1);
    assert a[4..][1..][..0] == [];
    ModSmall(Shl32(a[4]), TWO64);
    ModSmall(Uint4korr(a) + Shl32(a[4]), TWO64);
  }

  lemma Load6(a: seq<byte>)
    requires |a| >= 6
    ensures Uint6korr(a) == FromLE(a[..6])
  {
    var v := Uint4korr(a) + Shl32(a[4]) + Shl40(a[5]);
    Load4(a);
    SixBytes(a);
    ModSmall(Shl32(a[4]), TWO64);
    ModSmall(Shl40(a[5]), TWO64);
    ModSmall(v, TWO64);
  }

  lemma SixBytes(a: seq<byte>)
    requires |a| >= 6
    ensures FromLE(a[..6]) == FromLE(a[..4]) + Shl32(a[4]) + Shl40(a[5])
  {
    Step4(a, 6);
    Step4(a, 4);
    Step(a[4..], 2);
    Step(a[5..], 1);
    assert a[4..][1..] == a[5..] && a[4..][..0] == [];
  }

  lemma Load8(a: seq<byte>)
    requires |a| >= 8
    ensures Uint8korr(a) == FromLE(a[..8]) < TWO64
    ensures Sint8korr(a) == Int64(FromLE(a[..8]))
  {
    var low, high := Uint4korr(a), Uint4korr(a[4..]);
    Load4(a);
    Load4(a[4..]);
    FirstFour(a);
    assert a[4..][..8 - 4] == a[4..][..4];
    ModSmall(Shl32(high), TWO64);
    ModSmall(low + Shl32(high), TWO64);
  }

  lemma FirstFour(a: seq<byte>)
    requires |a| >= 8
    ensures FromLE(a[..8]) == FromLE(a[..4]) + Shl32(FromLE(a[4..][..4]))
  {
    Step4(a, 8);
    Step4(a, 4);
    assert a[4..][..0] == [];
  }

  lemma OrAdd(x: nat, y: nat, q: nat, k: nat)
    requires x == q * Pow2(k) && y < Pow2(k)
    ensures BitOr(x, y) == x + y
  {
    OrDisjoint(q, y, k);
  }

  lemma OrBytes(high: nat, mid: byte, low: byte)
    ensures Or3(Shl16(high), Shl8(mid), low) == Shl16(high) + Shl8(mid) + low
  {
    Pow2Bytes();
    OrAdd(Shl16(high), Shl8(mid), high, 16);
    OrAdd(Shl16(high) + Shl8(mid), low, 256 * high + mid, 8);
  }

  lemma OrSign(sign: byte, high: byte)
    ensures BitOr(Shl24(sign), Shl16(high)) == Shl16(256 * sign + high)
  {
    Pow2Bytes();
    OrAdd(Shl24(sign), Shl16(high), sign, 24);
  }

  lemma Or4Bytes(sign: byte, high: byte, mid: byte, low: byte)
    ensures Or4(U32(Shl24(sign)), U32(Shl16(high)), U32(Shl8(mid)), low)
            == Shl24(sign) + Shl16(high) + Shl8(mid) + low
    ensures Or3(U32(Shl16(high)), U32(Shl8(mid)), low) == Shl16(high) + Shl8(mid) + low
  {
    U32Bytes(sign);
    U32Bytes(high);
    U32Bytes(mid);
    OrSign(sign, high);
    OrBytes(256 * sign + high, mid, low);
    OrBytes(high, mid, low);
  }

  lemma SignOf24(v: nat, top: byte)
    requires Shl16(top) <= v < Shl16(top + 1)
    ensures Signed(v, TWO24) == if top >= 128 then v - TWO24 else v
    ensures top >= 128 ==> Int32(Shl24(255) + v) == v - TWO24
    ensures top < 128 ==> Int32(v) == v
  {
    ModSmall(v, TWO24);
    ModSmall(v, TWO32);
    ModSmall(Shl24(255) + v, TWO32);
  }

  /** `sint3korr` is `uint3korr`, minus 2^24 exactly when the top bit of the third byte is set. */
  lemma Load3Signed(a: seq<byte>)
    requires |a| >= 3
    ensures Sint3korr(a) == if a[2] >= 128 then Uint3korr(a) - TWO24 else Uint3korr(a)
    ensures Sint3korr(a) == Signed(FromLE(a[..3]), TWO24)
  {
    var high, mid, low := a[2], a[1], a[0];
    Load3(a);
    TopBit(high);
    Or4Bytes(255, high, mid, low);
    SignOf24(FromLE(a[..3]), high);
  }

  // ------------------------------------------------------------------ stores

  /** `bytes` have been written at `at` and nothing else has changed. */
  ghost predicate Stored(before: seq<byte>, after: seq<byte>, at: nat, bytes: seq<byte>) {
    && at + |bytes| <= |before| == |after|
    && (forall k :: at <= k < at + |bytes| ==> after[k] == bytes[k - at])
    && (forall k :: 0 <= k < |before| && !(at <= k < at + |bytes|) ==> after[k] == before[k])
  }

  lemma Digits(v: nat)
    ensures ToLE(v, 2) == [Uchar(v), Uchar(Shr8(v))]
    ensures ToLE(v, 3) == [Uchar(v), Uchar(Shr8(v)), Uchar(Shr16(v))]
    ensures ToLE(v, 4) == [Uchar(v), Uchar(Shr8(v)), Uchar(Shr16(v)), Uchar(Shr24(v))]
  {
    DigitsFrom(v, 2);
    DigitsFrom(v, 3);
    DigitsFrom(v, 4);
  }

  lemma DigitsFrom(v: nat, k: nat)
    requires k >= 2
    ensures ToLE(v, k) == [Uchar(v), Uchar(Shr8(v))] + ToLE(Shr16(v), k - 2)
    ensures ToLE(v, 0) == [] && ToLE(v, 1) == [Uchar(v)]
    ensures Shr16(v) == Shr8(Shr8(v)) && Shr24(v) == Shr8(Shr16(v)) && Shr32(v) == Shr16(Shr16(v))
            && Shr40(v) == Shr8(Shr32(v))
  {
  }

  method Int2Store(t: array<byte>, at: nat, a: nat)
    requires at + 2 <= t.Length && a < TWO16
    modifies t
    ensures Stored(old(t[..]), t[..], at, ToLE(a, 2))
  {
    Digits(a);
    t[at] := Uchar(a);
    t[at + 1] := Uchar(Shr8(a));
  }

  method Int3Store(t: array<byte>, at: nat, a: nat)
    requires at + 3 <= t.Length && a < TWO32
    modifies t
    ensures Stored(old(t[..]), t[..], at, ToLE(a, 3))
  {
    Digits(a);
    t[at] := Uchar(a);
    t[at + 1] := Uchar(Shr8(a));
    t[at + 2] := Uchar(Shr16(a));
  }

  method Int4Store(t: array<byte>, at: nat, a: nat)
    requires at + 4 <= t.Length && a < TWO32
    modifies t
    ensures Stored(old(t[..]), t[..], at, ToLE(a, 4))
  {
    Digits(a);
    t[at] := Uchar(a);
    t[at + 1] := Uchar(Shr8(a));
    t[at + 2] := Uchar(Shr16(a));
    t[at + 3] := Uchar(Shr24(a));
  }

  /** The number without its low `j` bytes. */
  function Above(v: nat, j: nat): nat
    decreases j
  {
    if j == 0 then v else Above(Shr8(v), j - 1)
  }

  lemma {:induction false} ToLESplit(v: nat, j: nat, k: nat)
    ensures ToLE(v, j + k) == ToLE(v, j) + ToLE(Above(v, j), k)
    decreases j
  {
    if j > 0 {
      ToLESplit(Shr8(v), j - 1, k);
    }
  }

  lemma AboveFour(v: nat)
    ensures Above(v, 4) == Shr32(v)
  {
    DigitsFrom(v, 2);
    assert Above(v, 4) == Shr8(Shr8(Shr8(Shr8(v))));
    DigitsFrom(Shr16(v), 2);
  }

  lemma DigitsLong(v: nat)
    ensures ToLE(v, 5) == ToLE(v, 4) + [Uchar(Shr32(v))]
    ensures ToLE(v, 6) == ToLE(v, 4) + [Uchar(Shr32(v)), Uchar(Shr40(v))]
    ensures ToLE(v, 8) == ToLE(v, 4) + ToLE(Shr32(v), 4)
  {
    AboveFour(v);
    ToLESplit(v, 4, 1);
    ToLESplit(v, 4, 2);
    ToLESplit(v, 4, 4);
    DigitsFrom(Shr32(v), 2);
    assert Shr8(Shr32(v)) == Shr40(v) by { DigitsFrom(v, 2); }
  }

  lemma LowDigits(v: nat)
    ensures ToLE(U32(v), 4) == ToLE(v, 4)
  {
    StoreLoad(v, 4);
    LoadStore(ToLE(v, 4));
    assert Pow256(4) == TWO32;
  }

  method Int5Store(t: array<byte>, at: nat, a: nat)
    requires at + 5 <= t.Length && a < TWO64
    modifies t
    ensures Stored(old(t[..]), t[..], at, ToLE(a, 5))
  {
    Digits(a);
    DigitsLong(a);
    t[at] := Uchar(a);
    t[at + 1] := Uchar(Shr8(a));
    t[at + 2] := Uchar(Shr16(a));
    t[at + 3] := Uchar(Shr24(a));
    t[at + 4] := Uchar(Shr32(a));
  }

  method Int6Store(t: array<byte>, at: nat, a: nat)
    requires at + 6 <= t.Length && a < TWO64
    modifies t
    ensures Stored(old(t[..]), t[..], at, ToLE(a, 6))
  {
    Digits(a);
    DigitsLong(a);
    t[at] := Uchar(a);
    t[at + 1] := Uchar(Shr8(a));
    t[at + 2] := Uchar(Shr16(a));
    t[at + 3] := Uchar(Shr24(a));
    t[at + 4] := Uchar(Shr32(a));
    t[at + 5] := Uchar(Shr40(a));
  }

  method Int8Store(t: array<byte>, at: nat, a: nat)
    requires at + 8 <= t.Length && a < TWO64
    modifies t
    ensures Stored(old(t[..]), t[..], at, ToLE(a, 8))
  {
    var defTemp, defTemp2 := U32(a), U32(Shr32(a));
    DigitsLong(a);
    LowDigits(a);
    LowDigits(Shr32(a));
    ghost var before := t[..];
    Int4Store(t, at, defTemp);
    ghost var mid := t[..];
    Int4Store(t, at + 4, defTemp2);
    StoredTwice(before, mid, t[..], at, ToLE(a, 4), ToLE(Shr32(a), 4));
  }

  lemma StoredTwice(before: seq<byte>, mid: seq<byte>, after: seq<byte>, at: nat, low: seq<byte>, high: seq<byte>)
    requires Stored(before, mid, at, low) && Stored(mid, after, at + |low|, high)
    ensures Stored(before, after, at, low + high)
  {
  }

  // ------------------------------------------------------------ round trips

  lemma Powers()
    ensures Pow256(2) == TWO16 && Pow256(3) == TWO24 && Pow256(4) == TWO32
    ensures Pow256(5) == TWO40 && Pow256(6) == TWO40 * 0x100 && Pow256(8) == TWO64
  {
    assert Pow256(2) == TWO16;
    assert Pow256(4) == TWO32;
    assert Pow256(6) == TWO40 * 0x100;
  }

  lemma StoredSlice(before: seq<byte>, after: seq<byte>, at: nat, bytes: seq<byte>)
    requires Stored(before, after, at, bytes)
    ensures after[at..][..|bytes|] == bytes
  {
  }

  /** What was stored at an address loads back modulo 256^k, at every width. */
  lemma UnsignedRoundTrip(before: seq<byte>, after: seq<byte>, at: nat, v: nat, k: nat)
    requires k in {2, 3, 4, 5, 6, 8} && Stored(before, after, at, ToLE(v, k))
    ensures FromLE(after[at..][..k]) == v % Pow256(k)
    ensures k == 2 ==> Uint2korr(after[at..]) == v % TWO16
    ensures k == 3 ==> Uint3korr(after[at..]) == v % TWO24
    ensures k == 4 ==> Uint4korr(after[at..]) == v % TWO32
    ensures k == 5 ==> Uint5korr(after[at..]) == v % TWO40
    ensures k == 6 ==> Uint6korr(after[at..]) == v % (TWO40 * 0x100)
    ensures k == 8 ==> Uint8korr(after[at..]) == v % TWO64
  {
    var a := after[at..];
    StoredSlice(before, after, at, ToLE(v, k));
    StoreLoad(v, k);
    Powers();
    if k == 2 { Load2(a); }
    if k == 3 { Load3(a); }
    if k == 4 { Load4(a); }
    if k == 5 { Load5(a); }
    if k == 6 { Load6(a); }
    if k == 8 { Load8(a); }
  }

  /** Cutting a number to a modulus and reading it back as signed is the identity on the signed range. */
  lemma SignedRange(x: int, m: int)
    requires m > 0 && m % 2 == 0 && -m / 2 <= x < m / 2
    ensures Signed(x, m) == x
    ensures Signed(x % m, m) == x
  {
    if x >= 0 {
      ModSmall(x, m);
    } else {
      ModUnique(x, m, -1, x + m);
      ModSmall(x + m, m);
    }
  }

  /** A signed number, converted to the parameter type of the store, loads back as itself: at three
      bytes on [-2^23, 2^23), and at 2, 4 and 8 bytes on the whole signed type. */
  lemma SignedRoundTrip(before: seq<byte>, after: seq<byte>, at: nat, x: int, k: nat)
    requires k in {2, 3, 4, 8} && -(Pow256(k) as int) <= 2 * x < Pow256(k)
    requires Stored(before, after, at, ToLE(x % Pow256(if k == 3 then 4 else k), k))
    ensures k == 2 ==> Sint2korr(after[at..]) == x
    ensures k == 3 ==> Sint3korr(after[at..]) == x
    ensures k == 4 ==> Sint4korr(after[at..]) == x
    ensures k == 8 ==> Sint8korr(after[at..]) == x
  {
    var p := Pow256(if k == 3 then 4 else k);
    UnsignedRoundTrip(before, after, at, x % p, k);
    FitsSigned(x, k);
    if k == 3 {
      SignedLoad3(after[at..], x);
    } else {
      SignedLoads(after[at..], x, k);
    }
  }

  lemma FitsSigned(x: int, k: nat)
    requires k in {2, 3, 4, 8} && -(Pow256(k) as int) <= 2 * x < Pow256(k)
    ensures Signed(x, Pow256(k)) == x && Signed(x % Pow256(k), Pow256(k)) == x
  {
    Powers();
    SignedRange(x, Pow256(k));
  }

  lemma SignedLoads(a: seq<byte>, x: int, k: nat)
    requires k in {2, 4, 8} && |a| >= k
    requires FromLE(a[..k]) == x % Pow256(k) % Pow256(k) && Signed(x % Pow256(k), Pow256(k)) == x
    ensures k == 2 ==> Sint2korr(a) == x
    ensures k == 4 ==> Sint4korr(a) == x
    ensures k == 8 ==> Sint8korr(a) == x
  {
    Powers();
    ModSmall(x % Pow256(k), Pow256(k));
    if k == 2 { Load2(a); }
    if k == 4 { Load4(a); }
    if k == 8 { Load8(a); }
  }

  lemma SignedLoad3(a: seq<byte>, x: int)
    requires |a| >= 3 && FromLE(a[..3]) == x % Pow256(4) % Pow256(3) && Signed(x, Pow256(3)) == x
    ensures Sint3korr(a) == x
  {
    Powers();
    ModTwice(x);
    Load3Signed(a);
    SignedMod(x, TWO24);
  }

  lemma ModTwice(x: int)
    ensures x % TWO32 % TWO24 == x % TWO24
  {
    var q, r := x / TWO32, x % TWO32;
    var q', r' := r / TWO24, r % TWO24;
    assert x == q * TWO32 + r == (256 * q + q') * TWO24 + r';
    ModUnique(x, TWO24, 256 * q + q', r');
  }

  lemma SignedMod(x: int, m: int)
    requires m > 0
    ensures Signed(x % m, m) == Signed(x, m)
  {
    ModSmall(x % m, m);
  }
}
