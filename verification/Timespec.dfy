/** Deadlines: absolute times built from the system time, compared and subtracted. */
module Timespec {
  import opened ByteOrder

  const NANOS: int := 1_000_000_000
  /** `my_getsystime` counts in ticks of 100 nanoseconds. */
  const TICKS: int := 10_000_000

  class Time {
    var sec: int
    var nsec: int

    constructor (sec: int, nsec: int)
      ensures this.sec == sec && this.nsec == nsec
    {
      this.sec, this.nsec := sec, nsec;
    }

    /** The instant in nanoseconds. */
    function Total(): int
      reads this
    {
      sec * 1_000_000_000 + nsec
    }

    predicate Normalised()
      reads this
    {
      0 <= nsec < 1_000_000_000
    }

    /** `set_timespec_nsec`, `now` being the system time. The result is normalised, and it is the exact
        deadline if and only if the tick count does not overflow. */
    method SetNsec(systime: nat, nanos: nat)
      requires systime < TWO64 && nanos < TWO64
      modifies this
      ensures Normalised() && sec >= 0
      ensures sec == DeadlineSec(systime, nanos) && nsec == DeadlineNsec(systime, nanos)
      ensures Total() == 100 * systime + nanos <==> systime + nanos / 100 < TWO64
    {
      var now := U64(systime + nanos / 100);
      sec := now / TICKS;
      nsec := now % TICKS * 100 + nanos % 100;
      DeadlineExact(systime, nanos);
    }

    /** `set_timespec`. */
    method SetSec(systime: nat, seconds: nat)
      requires systime < TWO64 && seconds < TWO64
      modifies this
      ensures Normalised()
      ensures Total() == 100 * systime + seconds * 1_000_000_000
              <==> seconds * 1_000_000_000 < TWO64 && systime + seconds * 1_000_000_000 / 100 < TWO64
    {
      SetNsec(systime, U64(seconds * NANOS));
      DeadlineExact(systime, U64(seconds * NANOS));
      WrapShrinks(seconds * NANOS);
    }
  }

  function DeadlineSec(systime: nat, nanos: nat): int {
    U64(systime + nanos / 100) / TICKS
  }

  function DeadlineNsec(systime: nat, nanos: nat): int {
    U64(systime + nanos / 100) % TICKS * 100 + nanos % 100
  }

  lemma WrapShrinks(x: nat)
    ensures U64(x) <= x
    ensures U64(x) == x <==> x < TWO64
  {
  }

  /** Splitting ticks into seconds and nanoseconds loses nothing; only the wrap-around can. */
  lemma DeadlineExact(systime: nat, nanos: nat)
    ensures var total := DeadlineSec(systime, nanos) * NANOS + DeadlineNsec(systime, nanos);
            && 0 <= DeadlineNsec(systime, nanos) < NANOS
            && total == 100 * U64(systime + nanos / 100) + nanos % 100
            && total <= 100 * systime + nanos
            && (total == 100 * systime + nanos <==> systime + nanos / 100 < TWO64)
  {
    var ticks := systime + nanos / 100;
    WrapShrinks(ticks);
    var now := U64(ticks);
    assert now == now / TICKS * TICKS + now % TICKS;
    assert nanos == nanos / 100 * 100 + nanos % 100;
  }

  /** `cmp_timespec`: on normalised times, the order of the instants. */
  method Compare(a: Time, b: Time) returns (r: int)
    requires a.Normalised() && b.Normalised()
    ensures r == 1 <==> a.Total() > b.Total()
    ensures r == -1 <==> a.Total() < b.Total()
    ensures r == 0 <==> a.Total() == b.Total()
    ensures r == 0 <==> a.sec == b.sec && a.nsec == b.nsec
  {
    if a.sec > b.sec || (a.sec == b.sec && a.nsec > b.nsec) {
      return 1;
    }
    if a.sec < b.sec || (a.sec == b.sec && a.nsec < b.nsec) {
      return -1;
    }
    return 0;
  }

  /** `diff_timespec`: the difference modulo 2^64, exact if and only if it is one of 64 unsigned bits. */
  method Difference(a: Time, b: Time) returns (r: int)
    ensures r == U64(a.Total() - b.Total())
    ensures r == a.Total() - b.Total() <==> 0 <= a.Total() - b.Total() < TWO64
  {
    r := U64(U64(U64(U64(a.sec - b.sec) * NANOS) + U64(a.nsec)) - U64(b.nsec));
    WrapSteps(a.sec - b.sec, a.nsec, b.nsec);
    assert (a.sec - b.sec) * NANOS + a.nsec - b.nsec == a.Total() - b.Total();
  }

  lemma ModShift(x: int, q: int)
    ensures U64(x + q * TWO64) == U64(x)
  {
    ModUnique(x + q * TWO64, TWO64, x / TWO64 + q, x % TWO64);
  }

  /** Wrapping after every step gives the same as wrapping once at the end. */
  lemma WrapSteps(d: int, m: int, n: int)
    ensures U64(U64(U64(U64(d) * NANOS) + U64(m)) - U64(n)) == U64(d * NANOS + m - n)
  {
    var x, y := U64(d) * NANOS, d * NANOS;
    assert y == x + d / TWO64 * NANOS * TWO64 by {
      assert d == d / TWO64 * TWO64 + U64(d);
    }
    ModShift(x, d / TWO64 * NANOS);
    WrapAdd(x, m);
    WrapAdd(U64(x) + U64(m), -U64(n));
    WrapSum(x, m, n);
    ModShift(x + m - n, d / TWO64 * NANOS);
  }

  lemma WrapAdd(x: int, y: int)
    ensures U64(U64(x) + y) == U64(x + y)
  {
    ModShift(U64(x) + y, x / TWO64);
    assert x == x / TWO64 * TWO64 + U64(x);
  }

  lemma WrapSum(x: int, m: int, n: int)
    ensures U64(U64(x) + U64(m) - U64(n)) == U64(x + m - n)
  {
    WrapAdd(x, U64(m) - U64(n));
    WrapAdd(m, x - U64(n));
    ModShift(x + m - n, n / TWO64);
    assert n == n / TWO64 * TWO64 + U64(n);
  }
}
