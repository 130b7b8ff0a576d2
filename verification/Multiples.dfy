/** Multiples of a unit, by counting down: alignment of addresses and lines that fill whole buffers. */
module Multiples {

  predicate IsMultiple(x: nat, w: nat)
    requires w > 0
    decreases x
  {
    x == 0 || (x >= w && IsMultiple(x - w, w))
  }

  /** The usual reading. */
  lemma {:induction false} MultipleIsMod(x: nat, w: nat)
    requires w > 0
    ensures IsMultiple(x, w) <==> x % w == 0
    decreases x
  {
    if x >= w {
      MultipleIsMod(x - w, w);
      ModLess(x, w);
    }
  }

  lemma ModLess(x: nat, w: nat)
    requires 0 < w <= x
    ensures (x - w) % w == x % w
  {
    var q, r := x / w, x % w;
    assert x - w == (q - 1) * w + r;
    var q', r' := (x - w) / w, (x - w) % w;
    assert x - w == q' * w + r';
    assert (q - 1 - q') * w == r' - r;
    Below(q - 1 - q', w);
  }

  lemma Below(d: int, w: int)
    requires w > 0
    ensures d >= 1 ==> d * w >= w
    ensures d <= -1 ==> d * w <= -w
  {
  }

  /** Between two different multiples there is room for a whole unit. */
  lemma {:induction false} MultiplesApart(x: nat, y: nat, w: nat)
    requires w > 0 && IsMultiple(x, w) && IsMultiple(y, w) && x > y
    ensures x - w >= y
    decreases y
  {
    if y > 0 { MultiplesApart(x - w, y - w, w); }
  }

  lemma {:induction false} ProductIsMultiple(q: nat, w: nat)
    requires w > 0
    ensures q * w >= 0 && IsMultiple(q * w, w)
    decreases q
  {
    if q > 0 {
      ProductIsMultiple(q - 1, w);
      assert q * w == (q - 1) * w + w;
    }
  }
}
