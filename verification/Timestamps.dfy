// Rescaling pcapng tick counts to nanoseconds.
module Timestamps {
  import opened Common
  import opened Arithmetic

  function Pow(b: nat, n: nat): nat {
    if n == 0 then 1 else b * Pow(b, n - 1)
  }

  const U64: nat := 0x1_0000_0000_0000_0000
  const U128: nat := 0x1_0000_0000_0000_0000_0000_0000_0000_0000
  const NANOS: nat := 1_000_000_000

  datatype Duration = Duration(secs: int, nanos: int)

  function ToNanos(d: Duration): int {
    d.secs * NANOS + d.nanos
  }

  // Rescales a raw tick count by an interface's declared resolution.
  function CorrectTimestamp(ticks: nat, resolution: Option<Byte>): Duration {
    var r := if resolution.Some? then resolution.value else 6;
    if r >= 128 then
      var unit := Unit(2, r - 128);
      Duration(ticks / unit, ticks % unit * NANOS / unit)
    else
      var exp := if r < 9 then r else 9;
      var unit := Unit(10, exp);
      Duration(ticks / unit, ticks % unit * Unit(10, 9 - exp))
  }

  // Ticks per second.
  function Unit(b: nat, n: nat): (u: nat)
    requires b > 0
    ensures u > 0 && u == Pow(b, n)
  {
    PowPositive(b, n);
    Pow(b, n)
  }

  lemma {:induction false} PowPositive(b: nat, n: nat)
    requires b > 0
    ensures Pow(b, n) > 0
  {
    if n > 0 {
      PowPositive(b, n - 1);
    }
  }

  lemma {:induction false} PowSplits(b: nat, m: nat, n: nat)
    ensures Pow(b, m) * Pow(b, n) == Pow(b, m + n)
  {
    if m > 0 {
      PowSplits(b, m - 1, n);
      MulAssoc(b, Pow(b, m - 1), Pow(b, n));
    }
  }

  // (q*u + x) / u == q + x / u
  lemma DivideShifted(q: int, u: int, x: int)
    requires u > 0
    ensures (q * u + x) / u == q + x / u
  {
    assert x == x / u * u + x % u;
    assert (q + x / u) * u == q * u + x / u * u;
    DivideUnique(q * u + x, u, q + x / u, x % u);
  }

  // Rescaling whole units and the remainder separately loses nothing.
  lemma SplitScale(t: nat, u: nat, k: nat)
    requires u > 0
    ensures t / u * k + t % u * k / u == t * k / u
  {
    var q, r := t / u, t % u;
    assert t == q * u + r;
    assert t * k == (q * k) * u + r * k;
    DivideShifted(q * k, u, r * k);
  }

  // The seconds per tick, as a fraction 1 / TicksPerSecond.
  function TicksPerSecond(resolution: Option<Byte>): (u: nat)
    ensures u > 0
  {
    var r := if resolution.Some? then resolution.value else 6;
    if r >= 128 then Unit(2, r - 128) else Unit(10, r)
  }

  lemma {:induction false} PowMonotone(b: nat, m: nat, n: nat)
    requires b > 0 && m <= n
    ensures Pow(b, m) <= Pow(b, n)
  {
    if m < n {
      PowMonotone(b, m, n - 1);
      PowPositive(b, n - 1);
      MulGrows(b, Pow(b, n - 1));
    }
  }

  // The result is the exact time, rounded down to nanoseconds, exactly when the resolution is a
  // power of two or no finer than nanoseconds (or there is nothing to scale).
  lemma TimestampIsExact(ticks: nat, resolution: Option<Byte>)
    ensures ToNanos(CorrectTimestamp(ticks, resolution)) == ticks * NANOS / TicksPerSecond(resolution)
            <==> resolution.None? || resolution.value >= 128 || resolution.value <= 9 || ticks == 0
  {
    var r := if resolution.Some? then resolution.value else 6;
    if r >= 128 {
      SplitScale(ticks, Unit(2, r - 128), NANOS);
    } else {
      DecimalScale(ticks, if r < 9 then r else 9);
      if r > 9 {
        FinerThanNanos(ticks, r);
      }
    }
  }

  lemma TenToNine()
    ensures Pow(10, 9) == NANOS
  {
    assert Pow(10, 3) == 1000;
    PowSplits(10, 3, 3);
    PowSplits(10, 6, 3);
  }

  lemma DecimalScale(ticks: nat, e: nat)
    requires e <= 9
    ensures var u := Unit(10, e);
            ToNanos(Duration(ticks / u, ticks % u * Unit(10, 9 - e))) == ticks * NANOS / u
            && ticks % u * Unit(10, 9 - e) < NANOS
  {
    var u, k := Unit(10, e), Unit(10, 9 - e);
    PowSplits(10, e, 9 - e);
    TenToNine();
    Rescale(ticks, u, k);
  }

  // Scaling by a multiple u * k of the unit is exact.
  lemma Rescale(t: nat, u: nat, k: nat)
    requires u > 0 && k > 0
    ensures t / u * (u * k) + t % u * k == t * (u * k) / u
    ensures t % u * k < u * k
  {
    var q, r := t / u, t % u;
    assert t == q * u + r;
    assert t * (u * k) == (t * k) * u + 0 by {
      assert t * (u * k) == t * (k * u) == (t * k) * u;
    }
    DivideUnique(t * (u * k), u, t * k, 0);
    assert (q * u + r) * k == q * u * k + r * k;
    assert q * u * k == q * (u * k);
    MulGrows(u - r, k);
    assert (u - r) * k == u * k - r * k;
  }

  lemma FinerThanNanos(ticks: nat, r: nat)
    requires r > 9
    ensures ToNanos(Duration(ticks / Unit(10, 9), ticks % Unit(10, 9))) == ticks
    ensures ticks * NANOS / Unit(10, r) == ticks <==> ticks == 0
  {
    TenToNine();
    PowSplits(10, 9, r - 9);
    PowMonotone(10, 1, r - 9);
    assert Pow(10, 1) == 10;
    var u := Unit(10, r);
    assert u == NANOS * Pow(10, r - 9);
    Shrinks(ticks, NANOS, u);
  }

  // Scaling by k / u with u > k strictly shrinks every positive count.
  lemma Shrinks(t: nat, k: nat, u: nat)
    requires u > k
    ensures t * k / u == t <==> t == 0
  {
    if t * k / u == t {
      assert t * k == t * u + t * k % u;
      assert t * (u - k) == t * u - t * k <= 0;
      if t > 0 {
        MulGrows(t, u - k);
      }
    }
  }

  // No intermediate value leaves 128 bits and no result leaves its field, for all 64-bit ticks.
  lemma NoOverflow(ticks: nat, resolution: Option<Byte>)
    requires ticks < U64
    ensures var r := if resolution.Some? then resolution.value else 6;
            var d := CorrectTimestamp(ticks, resolution);
            && d.secs < U64 && d.nanos < NANOS
            && (r >= 128 ==> Unit(2, r - 128) < U128 && ticks % Unit(2, r - 128) * NANOS < U128)
            && (r < 128 ==> var exp := if r < 9 then r else 9;
                            Unit(10, exp) < U128 && ticks % Unit(10, exp) * Unit(10, 9 - exp) < U128)
  {
    var r := if resolution.Some? then resolution.value else 6;
    if r >= 128 {
      var u := Unit(2, r - 128);
      PowMonotone(2, r - 128, 127);
      TwoTo127();
      Quotients(ticks, u);
      Fraction(ticks % u, u, NANOS);
    } else {
      var exp := if r < 9 then r else 9;
      DecimalScale(ticks, exp);
      Quotients(ticks, Unit(10, exp));
      PowMonotone(10, exp, 9);
      TenToNine();
    }
  }

  // A proper fraction of k is less than k.
  lemma Fraction(x: nat, u: nat, k: nat)
    requires x < u && k > 0
    ensures x * k / u < k
  {
    var y := x * k / u;
    assert x * k == y * u + x * k % u;
    if y >= k {
      assert y * u == k * u + (y - k) * u && (y - k) * u >= 0;
      assert k * u == x * k + (u - x) * k;
      MulGrows(u - x, k);
    }
  }

  lemma Quotients(t: nat, u: nat)
    requires u > 0
    ensures t / u <= t && t % u <= t
  {
    var q := t / u;
    assert t == q * u + t % u;
    if q > 0 {
      MulGrows(u, q);
    }
  }

  lemma TwoTo127()
    ensures Pow(2, 127) < U128
  {
    assert Pow(2, 4) == 16;
    PowSplits(2, 4, 4);
    PowSplits(2, 8, 8);
    PowSplits(2, 16, 16);
    PowSplits(2, 32, 32);
    PowSplits(2, 64, 63);
    PowSplits(2, 32, 31);
    PowSplits(2, 16, 15);
    PowSplits(2, 8, 7);
    assert Pow(2, 7) == 8 * Pow(2, 4);
  }
}
